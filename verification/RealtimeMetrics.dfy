/** Realtime metrics per agency: how many records and trips a feed matched, and how stale it is
    (internal/gtfs/metrics.go). */
module RealtimeMetrics {
  import opened Collections

  /** A stop time update with its predicted arrival and departure times. */
  datatype StopUpdate = StopUpdate(stopID: Option<string>, arrival: Option<int>, departure: Option<int>)

  datatype RealtimeTrip = RealtimeTrip(id: string, updates: seq<StopUpdate>)

  /** What the static schedule knows of a poll's trips: routes and blocks by trip, agencies by route, stops. */
  datatype Schedule = Schedule(
    routeOf: map<string, string>, blockOf: map<string, string>, agencyOf: map<string, string>, stopIDs: set<string>)

  /* ---------- Activity ---------- */

  const LOOKAHEAD: int := 3600

  function FirstPrediction(u: StopUpdate): Option<int> {
    if u.arrival.Some? then u.arrival else u.departure
  }

  function LastPrediction(u: StopUpdate): Option<int> {
    if u.departure.Some? then u.departure else u.arrival
  }

  predicate IsTripActive(t: RealtimeTrip, now: int) {
    t.updates != []
    && var first, last := FirstPrediction(t.updates[0]), LastPrediction(t.updates[|t.updates| - 1]);
    first.Some? && last.Some? && first.value < now + LOOKAHEAD && now < last.value
  }

  predicate IsRecordActive(group: seq<RealtimeTrip>, now: int) {
    exists i :: 0 <= i < |group| && IsTripActive(group[i], now)
  }

  /* ---------- Records: one per block ---------- */

  function RecordKey(s: Schedule, tripID: string): string {
    if tripID in s.blockOf then "block:" + s.blockOf[tripID] else "trip:" + tripID
  }

  function KeyOfTrip(s: Schedule): RealtimeTrip -> Option<string> {
    (t: RealtimeTrip) => Some(RecordKey(s, t.id))
  }

  /** Two trips fall in one record exactly when they share a block, or have none and the same ID:
      a block never collides with a trip. */
  lemma RecordsAreBlocks(s: Schedule, a: string, b: string)
    ensures RecordKey(s, a) == RecordKey(s, b) <==>
              || (a in s.blockOf && b in s.blockOf && s.blockOf[a] == s.blockOf[b])
              || (a !in s.blockOf && b !in s.blockOf && a == b)
  {
    PrefixesDiffer(if a in s.blockOf then s.blockOf[a] else a, if b in s.blockOf then s.blockOf[b] else b);
  }

  lemma PrefixesDiffer(x: string, y: string)
    ensures "block:" + x != "trip:" + y && "trip:" + x != "block:" + y
    ensures "block:" + x == "block:" + y <==> x == y
    ensures "trip:" + x == "trip:" + y <==> x == y
  {
    assert ("block:" + x)[0] == 'b' && ("trip:" + x)[0] == 't';
    assert ("block:" + y)[0] == 'b' && ("trip:" + y)[0] == 't';
    assert ("block:" + x)[6..] == x && ("block:" + y)[6..] == y;
    assert ("trip:" + x)[5..] == x && ("trip:" + y)[5..] == y;
  }

  /** Every trip of a group has the group's key. */
  ghost predicate KeyedGroups(s: Schedule, groups: map<string, seq<RealtimeTrip>>) {
    forall k: string, i: int :: k in groups && 0 <= i < |groups[k]| ==> RecordKey(s, groups[k][i].id) == k
  }

  lemma GroupsAreKeyed(s: Schedule, trips: seq<RealtimeTrip>)
    ensures KeyedGroups(s, Grouped(KeyOfTrip(s), trips))
  {
    var groups: map<string, seq<RealtimeTrip>> := Grouped(KeyOfTrip(s), trips);
    forall k: string, i: int | k in groups && 0 <= i < |groups[k]| ensures RecordKey(s, groups[k][i].id) == k {
      GroupIsFilter(KeyOfTrip(s), trips, k);
      assert groups[k][i] in Filter(KeyedBy(KeyOfTrip(s), k), trips);
      assert KeyedBy(KeyOfTrip(s), k)(groups[k][i]);
    }
  }

  /* ---------- Matched trips ---------- */

  /** The first trip of a record that the static schedule knows. */
  function FirstStaticTrip(group: seq<RealtimeTrip>, s: Schedule): (r: Option<string>)
    ensures r.Some? ==> r.value in s.routeOf && exists i :: 0 <= i < |group| && group[i].id == r.value
  {
    if group == [] then None
    else if group[0].id in s.routeOf then Some(group[0].id)
    else
      var rest := FirstStaticTrip(group[1..], s);
      assert rest.Some? ==> exists i :: 0 <= i < |group[1..]| && group[1..][i].id == rest.value;
      assert forall i :: 0 <= i < |group[1..]| ==> group[1..][i] == group[i + 1];
      rest
  }

  datatype Match = Match(agencyID: string, tripID: string)

  /** What a record contributes: its first known trip, under that trip's agency, if it is active. */
  function Contribution(group: seq<RealtimeTrip>, s: Schedule, now: int): Option<Match> {
    var first := FirstStaticTrip(group, s);
    if first.None? || !IsRecordActive(group, now) then None
    else if s.routeOf[first.value] in s.agencyOf then Some(Match(s.agencyOf[s.routeOf[first.value]], first.value))
    else None
  }

  ghost predicate IsMatch(groups: map<string, seq<RealtimeTrip>>, keys: set<string>, s: Schedule, now: int, m: Match) {
    exists k :: k in keys && k in groups && Contribution(groups[k], s, now) == Some(m)
  }

  /** Each agency's list holds the matches of the given records, each trip once. */
  ghost predicate ListsMatches(r: map<string, seq<string>>, groups: map<string, seq<RealtimeTrip>>, keys: set<string>,
                               s: Schedule, now: int)
  {
    && (forall a :: Distinct(Get(r, a)))
    && forall a, id :: id in Get(r, a) <==> IsMatch(groups, keys, s, now, Match(a, id))
  }

  function Listed(r: map<string, seq<string>>, c: Option<Match>): map<string, seq<string>> {
    if c.Some? then r[c.value.agencyID := Get(r, c.value.agencyID) + [c.value.tripID]] else r
  }

  lemma ListsNext(r: map<string, seq<string>>, groups: map<string, seq<RealtimeTrip>>, keys: set<string>, s: Schedule,
                  now: int, k: string)
    requires KeyedGroups(s, groups) && ListsMatches(r, groups, keys, s, now) && k in groups && k !in keys
    ensures ListsMatches(Listed(r, Contribution(groups[k], s, now)), groups, keys + {k}, s, now)
  {
    var c := Contribution(groups[k], s, now);
    var next := Listed(r, c);
    forall a ensures Distinct(Get(next, a)) { assert Distinct(Get(r, a)); }
    forall a, id ensures id in Get(next, a) <==> IsMatch(groups, keys + {k}, s, now, Match(a, id)) {
      assert id in Get(r, a) <==> IsMatch(groups, keys, s, now, Match(a, id));
    }
  }

  /** Visits the records in any order. */
  method MatchedTripIDsByAgency(groups: map<string, seq<RealtimeTrip>>, s: Schedule, now: int)
    returns (r: map<string, seq<string>>)
    requires KeyedGroups(s, groups)
    ensures ListsMatches(r, groups, groups.Keys, s, now)
  {
    r := map[];
    var rest := groups.Keys;
    while rest != {}
      invariant rest <= groups.Keys
      invariant ListsMatches(r, groups, groups.Keys - rest, s, now)
      decreases rest
    {
      var k :| k in rest;
      ListsNext(r, groups, groups.Keys - rest, s, now, k);
      assert groups.Keys - rest + {k} == groups.Keys - (rest - {k});
      rest := rest - {k};
      var first := FirstStaticTrip(groups[k], s);
      if first.None? || !IsRecordActive(groups[k], now) { continue; }
      var routeID := s.routeOf[first.value];
      if routeID in s.agencyOf {
        r := r[s.agencyOf[routeID] := Get(r, s.agencyOf[routeID]) + [first.value]];
      }
    }
    assert groups.Keys - rest == groups.Keys;
  }

  /** All matched trips of a feed, over every agency. */
  ghost function AllMatched(groups: map<string, seq<RealtimeTrip>>, keys: set<string>, s: Schedule,
                            now: int): set<string>
  {
    set k | k in keys && k in groups && Contribution(groups[k], s, now).Some? ::
        Contribution(groups[k], s, now).value.tripID
  }

  ghost function MatchedBy(group: seq<RealtimeTrip>, s: Schedule, now: int): (r: set<string>)
    ensures |r| <= 1
  {
    var c := Contribution(group, s, now);
    if c.Some? then {c.value.tripID} else {}
  }

  lemma AllMatchedNext(groups: map<string, seq<RealtimeTrip>>, keys: set<string>, k: string, s: Schedule, now: int)
    requires k in groups
    ensures AllMatched(groups, keys + {k}, s, now) == AllMatched(groups, keys, s, now) + MatchedBy(groups[k], s, now)
  {
  }

  lemma {:induction false} AtMostOnePerRecord(groups: map<string, seq<RealtimeTrip>>, keys: set<string>, s: Schedule,
                                              now: int)
    requires keys <= groups.Keys
    ensures |AllMatched(groups, keys, s, now)| <= |keys|
  {
    if keys != {} {
      var k :| k in keys;
      AtMostOnePerRecord(groups, keys - {k}, s, now);
      AllMatchedNext(groups, keys - {k}, k, s, now);
      assert keys - {k} + {k} == keys;
      var rest, one := AllMatched(groups, keys - {k}, s, now), MatchedBy(groups[k], s, now);
      assert |rest + one| <= |rest| + |one|;
    }
  }

  /** Per feed, the matched trips over all agencies are distinct and no more than the records, each is
      known to the schedule, and so none is among the unmatched ones. */
  lemma MatchedTripsAreDistinct(r: map<string, seq<string>>, groups: map<string, seq<RealtimeTrip>>, s: Schedule,
                                now: int)
    requires KeyedGroups(s, groups) && ListsMatches(r, groups, groups.Keys, s, now)
    ensures forall a, b, id :: id in Get(r, a) && id in Get(r, b) ==> a == b
    ensures forall a :: Distinct(Get(r, a))
    ensures forall id :: id in AllMatched(groups, groups.Keys, s, now) <==> exists a :: id in Get(r, a)
    ensures |AllMatched(groups, groups.Keys, s, now)| <= |groups|
    ensures forall a, id :: id in Get(r, a) ==> id in s.routeOf
  {
    AtMostOnePerRecord(groups, groups.Keys, s, now);
    forall a, b, id | id in Get(r, a) && id in Get(r, b) ensures a == b {
      assert IsMatch(groups, groups.Keys, s, now, Match(a, id)) && IsMatch(groups, groups.Keys, s, now, Match(b, id));
      var k :| k in groups && Contribution(groups[k], s, now) == Some(Match(a, id));
      var l :| l in groups && Contribution(groups[l], s, now) == Some(Match(b, id));
    }
    forall id ensures id in AllMatched(groups, groups.Keys, s, now) <==> exists a :: id in Get(r, a) {
    }
    forall a, id | id in Get(r, a) ensures id in s.routeOf {
      assert IsMatch(groups, groups.Keys, s, now, Match(a, id));
    }
  }

  /* ---------- Unmatched trips and stops ---------- */

  function UnknownTrips(trips: seq<RealtimeTrip>, s: Schedule): set<string> {
    set t | t in trips && t.id !in s.routeOf :: t.id
  }

  function NamedStops(updates: seq<StopUpdate>): set<string> {
    set u | u in updates && u.stopID.Some? :: u.stopID.value
  }

  function AllNamedStops(trips: seq<RealtimeTrip>): set<string> {
    set t, stopID | t in trips && stopID in NamedStops(t.updates) :: stopID
  }

  method ClassifyStops(updates: seq<StopUpdate>, known: set<string>, matched: set<string>, unmatched: set<string>)
    returns (matched': set<string>, unmatched': set<string>)
    ensures matched' == matched + NamedStops(updates) * known
    ensures unmatched' == unmatched + (NamedStops(updates) - known)
  {
    matched', unmatched' := matched, unmatched;
    for i := 0 to |updates|
      invariant matched' == matched + NamedStops(updates[..i]) * known
      invariant unmatched' == unmatched + (NamedStops(updates[..i]) - known)
    {
      var u := updates[i];
      assert updates[..i + 1] == updates[..i] + [u];
      assert NamedStops(updates[..i + 1]) == NamedStops(updates[..i]) + if u.stopID.Some? then {u.stopID.value} else {};
      if u.stopID.None? { continue; }
      if u.stopID.value in known {
        matched' := matched' + {u.stopID.value};
      } else {
        unmatched' := unmatched' + {u.stopID.value};
      }
    }
    assert updates[..|updates|] == updates;
  }

  method ClassifyTrips(trips: seq<RealtimeTrip>, s: Schedule)
    returns (unmatchedTrips: set<string>, matchedStops: set<string>, unmatchedStops: set<string>)
    ensures unmatchedTrips == UnknownTrips(trips, s)
    ensures matchedStops == AllNamedStops(trips) * s.stopIDs
    ensures unmatchedStops == AllNamedStops(trips) - s.stopIDs
  {
    unmatchedTrips, matchedStops, unmatchedStops := {}, {}, {};
    for i := 0 to |trips|
      invariant unmatchedTrips == UnknownTrips(trips[..i], s)
      invariant matchedStops == AllNamedStops(trips[..i]) * s.stopIDs
      invariant unmatchedStops == AllNamedStops(trips[..i]) - s.stopIDs
    {
      assert trips[..i + 1] == trips[..i] + [trips[i]];
      if trips[i].id !in s.routeOf { unmatchedTrips := unmatchedTrips + {trips[i].id}; }
      matchedStops, unmatchedStops := ClassifyStops(trips[i].updates, s.stopIDs, matchedStops, unmatchedStops);
    }
    assert trips[..|trips|] == trips;
  }

  /* ---------- One feed ---------- */

  datatype FeedMetrics = FeedMetrics(
    records: nat, matchedByAgency: map<string, seq<string>>,
    unmatchedTrips: seq<string>, matchedStops: seq<string>, unmatchedStops: seq<string>)

  /** The metrics of a poll, up to the order in which an agency's matched trips are listed. */
  ghost predicate MeasuresFeed(m: FeedMetrics, trips: seq<RealtimeTrip>, s: Schedule, now: int) {
    var groups := Grouped(KeyOfTrip(s), trips);
    && m.records == |groups|
    && ListsMatches(m.matchedByAgency, groups, groups.Keys, s, now)
    && m.unmatchedTrips == SortedMembers(UnknownTrips(trips, s))
    && m.matchedStops == SortedMembers(AllNamedStops(trips) * s.stopIDs)
    && m.unmatchedStops == SortedMembers(AllNamedStops(trips) - s.stopIDs)
  }

  /** The keys of a set, sorted: one list whatever the iteration order. */
  method SortedKeys(items: set<string>) returns (keys: seq<string>)
    ensures keys == SortedMembers(items)
    ensures |keys| == |items|
  {
    keys := SortStrings(items);
    AscendingUnique(keys, SortedMembers(items));
  }

  method ComputeFeedMetrics(trips: seq<RealtimeTrip>, s: Schedule, now: int) returns (m: FeedMetrics)
    ensures MeasuresFeed(m, trips, s, now)
  {
    var groups := GroupBy(KeyOfTrip(s), trips);
    GroupsAreKeyed(s, trips);
    var matched := MatchedTripIDsByAgency(groups, s, now);
    var unmatchedTrips, matchedStops, unmatchedStops := ClassifyTrips(trips, s);
    var tripList := SortedKeys(unmatchedTrips);
    var matchedList := SortedKeys(matchedStops);
    var unmatchedList := SortedKeys(unmatchedStops);
    m := FeedMetrics(|groups|, matched, tripList, matchedList, unmatchedList);
  }

  /** Matched and unmatched never overlap, for trips and for stops. */
  lemma MatchedAndUnmatchedAreDisjoint(m: FeedMetrics, trips: seq<RealtimeTrip>, s: Schedule, now: int)
    requires MeasuresFeed(m, trips, s, now)
    ensures forall a, id :: id in Get(m.matchedByAgency, a) ==> id !in m.unmatchedTrips
    ensures forall id :: id in m.matchedStops ==> id !in m.unmatchedStops
    ensures forall a, b, id :: id in Get(m.matchedByAgency, a) && id in Get(m.matchedByAgency, b) ==> a == b
    ensures |AllMatched(Grouped(KeyOfTrip(s), trips), Grouped(KeyOfTrip(s), trips).Keys, s, now)| <= m.records
  {
    GroupsAreKeyed(s, trips);
    MatchedTripsAreDistinct(m.matchedByAgency, Grouped(KeyOfTrip(s), trips), s, now);
  }

  /* ---------- A feed's metrics in its own trips ---------- */

  /** The trips are updates of one record: they share a block, or have none and the same ID. */
  predicate SameRecord(s: Schedule, a: RealtimeTrip, b: RealtimeTrip) {
    if a.id in s.blockOf && b.id in s.blockOf then s.blockOf[a.id] == s.blockOf[b.id]
    else a.id !in s.blockOf && b.id !in s.blockOf && a.id == b.id
  }

  /** The trip is predicted to start within the hour and not to have ended: its first stop by the
      arrival, or the departure if it has no arrival, and its last stop the other way round. */
  predicate PredictedActive(t: RealtimeTrip, now: int) {
    t.updates != [] && var first, last := t.updates[0], t.updates[|t.updates| - 1];
    && (if first.arrival.Some? then first.arrival.value < now + 3600
        else first.departure.Some? && first.departure.value < now + 3600)
    && if last.departure.Some? then now < last.departure.value else last.arrival.Some? && now < last.arrival.value
  }

  /** Trip i is known to the schedule, and the first of its record that is. */
  ghost predicate FirstKnown(trips: seq<RealtimeTrip>, s: Schedule, i: int) {
    && 0 <= i < |trips| && trips[i].id in s.routeOf
    && forall j :: 0 <= j < i && SameRecord(s, trips[j], trips[i]) ==> trips[j].id !in s.routeOf
  }

  ghost predicate RecordIsActive(trips: seq<RealtimeTrip>, s: Schedule, now: int, i: int) {
    0 <= i < |trips| && exists t :: t in trips && SameRecord(s, t, trips[i]) && PredictedActive(t, now)
  }

  ghost predicate FirstKept(keep: RealtimeTrip -> bool, trips: seq<RealtimeTrip>, s: Schedule, i: int) {
    && 0 <= i < |trips| && keep(trips[i]) && trips[i].id in s.routeOf
    && forall j :: 0 <= j < i && keep(trips[j]) ==> trips[j].id !in s.routeOf
  }

  lemma {:induction false} FirstStaticOfFilter(keep: RealtimeTrip -> bool, trips: seq<RealtimeTrip>, s: Schedule,
                                               id: string)
    ensures FirstStaticTrip(Filter(keep, trips), s) == Some(id)
            <==> exists i :: FirstKept(keep, trips, s, i) && trips[i].id == id
  {
    if trips != [] {
      var rest := trips[1..];
      FirstStaticOfFilter(keep, rest, s, id);
      if keep(trips[0]) && trips[0].id in s.routeOf {
        assert FirstKept(keep, trips, s, 0);
        assert forall i :: FirstKept(keep, trips, s, i) ==> i == 0;
      } else {
        forall i ensures FirstKept(keep, trips, s, i) <==> i > 0 && FirstKept(keep, rest, s, i - 1) {
          FirstKeptShifts(keep, trips, s, i);
        }
        if FirstStaticTrip(Filter(keep, rest), s) == Some(id) {
          var i :| FirstKept(keep, rest, s, i) && rest[i].id == id;
          assert FirstKept(keep, trips, s, i + 1);
        }
      }
    }
  }

  lemma FirstKeptShifts(keep: RealtimeTrip -> bool, trips: seq<RealtimeTrip>, s: Schedule, i: int)
    requires trips != [] && !(keep(trips[0]) && trips[0].id in s.routeOf)
    ensures FirstKept(keep, trips, s, i) <==> i > 0 && FirstKept(keep, trips[1..], s, i - 1)
  {
    var rest := trips[1..];
    assert forall j :: 0 <= j < |rest| ==> rest[j] == trips[j + 1];
    if i > 0 && FirstKept(keep, rest, s, i - 1) {
      forall j | 0 <= j < i && keep(trips[j]) ensures trips[j].id !in s.routeOf {
        if j > 0 { assert rest[j - 1] == trips[j]; }
      }
    }
  }

  lemma SameKeySameRecord(s: Schedule, a: RealtimeTrip, b: RealtimeTrip)
    ensures RecordKey(s, a.id) == RecordKey(s, b.id) <==> SameRecord(s, a, b)
  {
    RecordsAreBlocks(s, a.id, b.id);
  }

  /** Record k's trips, and what is known of them. */
  lemma RecordOf(trips: seq<RealtimeTrip>, s: Schedule, now: int, k: string, i: int)
    requires 0 <= i < |trips| && RecordKey(s, trips[i].id) == k
    ensures var groups := Grouped(KeyOfTrip(s), trips);
      && k in groups
      && (IsRecordActive(groups[k], now) <==> RecordIsActive(trips, s, now, i))
      && (FirstKept(KeyedBy(KeyOfTrip(s), k), trips, s, i) <==> FirstKnown(trips, s, i))
  {
    var groups, keep := Grouped(KeyOfTrip(s), trips), KeyedBy(KeyOfTrip(s), k);
    GroupIsFilter(KeyOfTrip(s), trips, k);
    assert trips[i] in trips && KeyOfTrip(s)(trips[i]) == Some(k);
    forall t ensures keep(t) <==> SameRecord(s, t, trips[i]) { SameKeySameRecord(s, t, trips[i]); }
    ActiveInGroup(groups[k], now);
    assert forall t :: t in groups[k] <==> t in trips && SameRecord(s, t, trips[i]);
  }

  lemma ActiveInGroup(group: seq<RealtimeTrip>, now: int)
    ensures IsRecordActive(group, now) <==> exists t :: t in group && PredictedActive(t, now)
  {
    if IsRecordActive(group, now) {
      var i :| 0 <= i < |group| && IsTripActive(group[i], now);
      assert group[i] in group && PredictedActive(group[i], now);
    }
    if t :| t in group && PredictedActive(t, now) {
      var i :| 0 <= i < |group| && group[i] == t;
      assert IsTripActive(group[i], now);
    }
  }

  /** Trip i is the one its record is matched by, for the agency of its route. */
  ghost predicate MatchedFor(trips: seq<RealtimeTrip>, s: Schedule, now: int, i: int, a: string) {
    && FirstKnown(trips, s, i) && RecordIsActive(trips, s, now, i)
    && s.routeOf[trips[i].id] in s.agencyOf && s.agencyOf[s.routeOf[trips[i].id]] == a
  }

  lemma ContributedTrip(trips: seq<RealtimeTrip>, s: Schedule, now: int, k: string, a: string, id: string)
    returns (i: int)
    requires k in Grouped(KeyOfTrip(s), trips)
    requires Contribution(Grouped(KeyOfTrip(s), trips)[k], s, now) == Some(Match(a, id))
    ensures MatchedFor(trips, s, now, i, a) && trips[i].id == id
  {
    GroupIsFilter(KeyOfTrip(s), trips, k);
    FirstStaticOfFilter(KeyedBy(KeyOfTrip(s), k), trips, s, id);
    i :| FirstKept(KeyedBy(KeyOfTrip(s), k), trips, s, i) && trips[i].id == id;
    RecordOf(trips, s, now, k, i);
  }

  lemma TripContributes(trips: seq<RealtimeTrip>, s: Schedule, now: int, i: int, a: string)
    requires MatchedFor(trips, s, now, i, a)
    ensures var groups, k := Grouped(KeyOfTrip(s), trips), RecordKey(s, trips[i].id);
      k in groups && Contribution(groups[k], s, now) == Some(Match(a, trips[i].id))
  {
    var k := RecordKey(s, trips[i].id);
    RecordOf(trips, s, now, k, i);
    GroupIsFilter(KeyOfTrip(s), trips, k);
    FirstStaticOfFilter(KeyedBy(KeyOfTrip(s), k), trips, s, trips[i].id);
  }

  /** The trips matched for an agency are exactly the first known trip of each record that has an
      active trip, where that trip's route is the agency's. */
  lemma MatchedTripMeans(m: FeedMetrics, trips: seq<RealtimeTrip>, s: Schedule, now: int, a: string, id: string)
    requires MeasuresFeed(m, trips, s, now)
    ensures id in Get(m.matchedByAgency, a) <==> exists i :: MatchedFor(trips, s, now, i, a) && trips[i].id == id
  {
    var groups := Grouped(KeyOfTrip(s), trips);
    assert id in Get(m.matchedByAgency, a) <==> IsMatch(groups, groups.Keys, s, now, Match(a, id));
    if k :| k in groups && Contribution(groups[k], s, now) == Some(Match(a, id)) {
      var i := ContributedTrip(trips, s, now, k, a, id);
    }
    if i :| MatchedFor(trips, s, now, i, a) && trips[i].id == id { TripContributes(trips, s, now, i, a); }
  }

  /** The records are the distinct blocks of the feed's trips and the distinct trips without one. */
  lemma RecordsCounted(m: FeedMetrics, trips: seq<RealtimeTrip>, s: Schedule, now: int)
    requires MeasuresFeed(m, trips, s, now)
    ensures m.records == |set t | t in trips :: RecordKey(s, t.id)|
  {
    var groups := Grouped(KeyOfTrip(s), trips);
    GroupKeys(KeyOfTrip(s), trips);
    assert groups.Keys == set t | t in trips :: RecordKey(s, t.id);
    assert |groups| == |groups.Keys|;
  }

  /* ---------- Attributing feeds to agencies ---------- */

  const UNKNOWN: int := -1

  predicate IsStalerThan(candidate: int, existing: int) {
    if candidate == UNKNOWN then existing != UNKNOWN
    else if existing == UNKNOWN then false
    else candidate > existing
  }

  /** A total order with the longest time since an update on top, and "never updated" above that. */
  lemma StalerIsTotalOrder(a: int, b: int, c: int)
    ensures !IsStalerThan(a, a)
    ensures IsStalerThan(a, b) || a == b || IsStalerThan(b, a)
    ensures IsStalerThan(a, b) && IsStalerThan(b, c) ==> IsStalerThan(a, c)
    ensures !IsStalerThan(a, UNKNOWN)
    ensures a > b && b != UNKNOWN && a != UNKNOWN ==> IsStalerThan(a, b)
  {
  }

  /** A feed that never updated has unknown staleness. */
  function FeedStaleness(lastUpdate: Option<int>, now: int): int {
    if lastUpdate.None? then UNKNOWN else now - lastUpdate.value
  }

  /** A feed's metrics with the agencies it covers and its staleness. */
  datatype Attributed = Attributed(metrics: FeedMetrics, covered: set<string>, staleness: int)

  function CoveredAgencies(agencyFilter: set<string>, all: set<string>): set<string> {
    if agencyFilter == {} then all else agencyFilter * all
  }

  /** What is accumulated for one agency. */
  datatype AgencyRow = AgencyRow(
    records: int, staleness: int, matchedTrips: set<string>, unmatchedTrips: set<string>,
    matchedStops: set<string>, unmatchedStops: set<string>)

  function AddTo(row: Option<AgencyRow>, f: Attributed, a: string): AgencyRow {
    var r := if row.Some? then row.value else AgencyRow(0, f.staleness, {}, {}, {}, {});
    AgencyRow(
      r.records + f.metrics.records,
      if row.None? || IsStalerThan(f.staleness, r.staleness) then f.staleness else r.staleness,
      r.matchedTrips + Members(Get(f.metrics.matchedByAgency, a)),
      r.unmatchedTrips + Members(f.metrics.unmatchedTrips),
      r.matchedStops + Members(f.metrics.matchedStops),
      r.unmatchedStops + Members(f.metrics.unmatchedStops))
  }

  function RowOf(rows: map<string, AgencyRow>, a: string): Option<AgencyRow> {
    if a in rows then Some(rows[a]) else None
  }

  /** An agency's row after a list of feeds. */
  function RowAfter(feeds: seq<Attributed>, a: string): Option<AgencyRow> {
    if feeds == [] then None
    else
      var before, f := RowAfter(feeds[..|feeds| - 1], a), feeds[|feeds| - 1];
      if a in f.covered then Some(AddTo(before, f, a)) else before
  }

  method AddToAgencySet(ids: seq<string>, to: set<string>) returns (result: set<string>)
    ensures result == to + Members(ids)
  {
    result := to;
    for i := 0 to |ids|
      invariant result == to + Members(ids[..i])
    {
      assert ids[..i + 1] == ids[..i] + [ids[i]];
      result := result + {ids[i]};
    }
    assert ids[..|ids|] == ids;
  }

  class Accumulator {
    var rows: map<string, AgencyRow>

    constructor ()
      ensures rows == map[]
    {
      rows := map[];
    }

    method AttributeToAgency(f: Attributed, a: string)
      modifies this
      ensures rows == old(rows)[a := AddTo(RowOf(old(rows), a), f, a)]
    {
      var row := if a in rows then rows[a] else AgencyRow(0, f.staleness, {}, {}, {}, {});
      var staleness := if a !in rows || IsStalerThan(f.staleness, row.staleness) then f.staleness else row.staleness;
      var matchedTrips := AddToAgencySet(Get(f.metrics.matchedByAgency, a), row.matchedTrips);
      var unmatchedTrips := AddToAgencySet(f.metrics.unmatchedTrips, row.unmatchedTrips);
      var matchedStops := AddToAgencySet(f.metrics.matchedStops, row.matchedStops);
      var unmatchedStops := AddToAgencySet(f.metrics.unmatchedStops, row.unmatchedStops);
      rows := rows[a := AgencyRow(row.records + f.metrics.records, staleness, matchedTrips, unmatchedTrips,
                                  matchedStops, unmatchedStops)];
    }

    /** Visits the covered agencies in any order; each gets the feed once. */
    method AttributeFeedMetrics(f: Attributed)
      modifies this
      ensures forall a :: RowOf(rows, a)
                == if a in f.covered then Some(AddTo(RowOf(old(rows), a), f, a)) else RowOf(old(rows), a)
    {
      var rest := f.covered;
      while rest != {}
        invariant rest <= f.covered
        invariant forall a :: RowOf(rows, a)
                    == if a in f.covered && a !in rest then Some(AddTo(RowOf(old(rows), a), f, a))
                                                else RowOf(old(rows), a)
        decreases rest
      {
        var a :| a in rest;
        rest := rest - {a};
        AttributeToAgency(f, a);
      }
    }
  }

  /** A feed as the manager holds it; it covers its agency filter, or everything. */
  datatype FeedState = FeedState(trips: seq<RealtimeTrip>, agencyFilter: set<string>, lastUpdate: Option<int>)

  /** The feed's own metrics, the agencies it covers and its staleness. Activity is judged at the
      schedule time, staleness by the wall clock. */
  ghost predicate Attributes(f: Attributed, feed: FeedState, all: set<string>, s: Schedule, now: int, wallClock: int) {
    && MeasuresFeed(f.metrics, feed.trips, s, now)
    && f.covered == CoveredAgencies(feed.agencyFilter, all)
    && f.staleness == FeedStaleness(feed.lastUpdate, wallClock)
  }

  /** A feed covers the known agencies of its filter, all of them without one; its staleness is the time
      since its last update by the wall clock, or -1 when it never updated. */
  lemma AttributionMeans(f: Attributed, feed: FeedState, all: set<string>, s: Schedule, now: int, wallClock: int,
                         a: string)
    requires Attributes(f, feed, all, s, now, wallClock)
    ensures a in f.covered <==> a in all && (feed.agencyFilter == {} || a in feed.agencyFilter)
    ensures f.staleness == match feed.lastUpdate case None => -1 case Some(at) => wallClock - at
  {
  }

  ghost predicate AllAttributed(attributed: seq<Attributed>, feeds: seq<FeedState>, all: set<string>, s: Schedule,
                                now: int, wallClock: int)
  {
    |attributed| == |feeds|
    && forall i :: 0 <= i < |feeds| ==> Attributes(attributed[i], feeds[i], all, s, now, wallClock)
  }

  lemma AttributedNext(attributed: seq<Attributed>, f: Attributed, feeds: seq<FeedState>, i: nat,
                       all: set<string>, s: Schedule, now: int, wallClock: int)
    requires i < |feeds| && AllAttributed(attributed, feeds[..i], all, s, now, wallClock)
    requires Attributes(f, feeds[i], all, s, now, wallClock)
    ensures AllAttributed(attributed + [f], feeds[..i + 1], all, s, now, wallClock)
  {
    forall j | 0 <= j <= i ensures Attributes((attributed + [f])[j], feeds[..i + 1][j], all, s, now, wallClock) {
      if j < i {
        assert Attributes(attributed[j], feeds[..i][j], all, s, now, wallClock) && feeds[..i][j] == feeds[..i + 1][j];
      }
    }
  }

  method AttributedFeed(feed: FeedState, all: set<string>, s: Schedule, now: int, wallClock: int)
    returns (f: Attributed)
    ensures Attributes(f, feed, all, s, now, wallClock)
  {
    var metrics := ComputeFeedMetrics(feed.trips, s, now);
    f := Attributed(metrics, CoveredAgencies(feed.agencyFilter, all), FeedStaleness(feed.lastUpdate, wallClock));
  }

  ghost predicate HoldsRows(rows: map<string, AgencyRow>, attributed: seq<Attributed>) {
    forall a :: RowOf(rows, a) == RowAfter(attributed, a)
  }

  /** The rows are those of the feeds, each measured and attributed. */
  ghost predicate IsTotal(rows: map<string, AgencyRow>, feeds: seq<FeedState>, all: set<string>, s: Schedule, now: int,
                          wallClock: int)
  {
    exists attributed :: AllAttributed(attributed, feeds, all, s, now, wallClock) && HoldsRows(rows, attributed)
  }

  /** A lookup in the schedule fails, which only a feed with trips makes. */
  predicate LookupFails(feeds: seq<FeedState>, failing: set<int>, i: int) {
    0 <= i < |feeds| && i in failing && feeds[i].trips != []
  }

  /** All feeds, in the order they are visited. A failing lookup aborts the whole pass. */
  method PopulateRealtimeMetrics(feeds: seq<FeedState>, all: set<string>, s: Schedule, now: int, wallClock: int,
                                 failing: set<int>)
    returns (r: Option<map<string, AgencyRow>>)
    ensures r.None? <==> exists i :: LookupFails(feeds, failing, i)
    ensures r.Some? ==> IsTotal(r.value, feeds, all, s, now, wallClock)
  {
    var acc := new Accumulator();
    ghost var attributed: seq<Attributed> := [];
    for i := 0 to |feeds|
      invariant fresh(acc)
      invariant AllAttributed(attributed, feeds[..i], all, s, now, wallClock)
      invariant HoldsRows(acc.rows, attributed)
      invariant forall j :: 0 <= j < i ==> !LookupFails(feeds, failing, j)
    {
      if LookupFails(feeds, failing, i) { return None; }
      var f := AttributedFeed(feeds[i], all, s, now, wallClock);
      acc.AttributeFeedMetrics(f);
      AttributedNext(attributed, f, feeds, i, all, s, now, wallClock);
      assert (attributed + [f])[..|attributed|] == attributed;
      attributed := attributed + [f];
    }
    assert feeds[..|feeds|] == feeds;
    r := Some(acc.rows);
  }

  /** What is published for an agency. */
  datatype AgencyReport = AgencyReport(
    matchedTrips: nat, unmatchedTrips: nat, unmatchedTripIDs: seq<string>,
    matchedStops: nat, unmatchedStops: nat, unmatchedStopIDs: seq<string>)

  /** An agency no feed covers is reported with zeros. */
  ghost function ReportOf(row: Option<AgencyRow>): AgencyReport {
    var r := if row.Some? then row.value else AgencyRow(0, 0, {}, {}, {}, {});
    AgencyReport(|r.matchedTrips|, |r.unmatchedTrips|, SortedMembers(r.unmatchedTrips),
                 |r.matchedStops|, |r.unmatchedStops|, SortedMembers(r.unmatchedStops))
  }

  method FinalizeRealtimeMetrics(agencyIDs: seq<string>, rows: map<string, AgencyRow>)
    returns (reports: map<string, AgencyReport>)
    ensures forall a :: a in reports <==> a in agencyIDs
    ensures forall a :: a in reports ==> reports[a] == ReportOf(RowOf(rows, a))
  {
    reports := map[];
    for i := 0 to |agencyIDs|
      invariant forall a :: a in reports <==> a in agencyIDs[..i]
      invariant forall a :: a in reports ==> reports[a] == ReportOf(RowOf(rows, a))
    {
      assert agencyIDs[..i + 1] == agencyIDs[..i] + [agencyIDs[i]];
      var r := if agencyIDs[i] in rows then rows[agencyIDs[i]] else AgencyRow(0, 0, {}, {}, {}, {});
      var trips := SortedKeys(r.unmatchedTrips);
      var stops := SortedKeys(r.unmatchedStops);
      reports := reports[agencyIDs[i] := AgencyReport(|r.matchedTrips|, |r.unmatchedTrips|, trips,
                                                      |r.matchedStops|, |r.unmatchedStops|, stops)];
    }
    assert agencyIDs[..|agencyIDs|] == agencyIDs;
  }

  /* ---------- The feed order does not matter ---------- */

  function RecordsFor(f: Attributed, a: string): int {
    if a in f.covered then f.metrics.records else 0
  }

  function RecordSum(feeds: seq<Attributed>, a: string): int {
    if feeds == [] then 0
    else RecordSum(feeds[..|feeds| - 1], a) + RecordsFor(feeds[|feeds| - 1], a)
  }

  /** An ID is reported for the agency by some feed that covers it. */
  ghost predicate ReportedBy(feeds: seq<Attributed>, a: string, idsOf: Attributed -> set<string>, id: string) {
    exists f :: f in feeds && a in f.covered && id in idsOf(f)
  }

  function MatchedTripsOf(a: string): Attributed -> set<string> {
    (f: Attributed) => Members(Get(f.metrics.matchedByAgency, a))
  }
  function UnmatchedTripsOf(): Attributed -> set<string> { (f: Attributed) => Members(f.metrics.unmatchedTrips) }
  function MatchedStopsOf(): Attributed -> set<string> { (f: Attributed) => Members(f.metrics.matchedStops) }
  function UnmatchedStopsOf(): Attributed -> set<string> { (f: Attributed) => Members(f.metrics.unmatchedStops) }

  ghost predicate IsUnion(ids: set<string>, feeds: seq<Attributed>, a: string, idsOf: Attributed -> set<string>) {
    forall id :: id in ids <==> ReportedBy(feeds, a, idsOf, id)
  }

  /** The staleness of some covering feed, and none is staler. */
  ghost predicate IsWorst(staleness: int, feeds: seq<Attributed>, a: string) {
    && (exists f :: f in feeds && a in f.covered && f.staleness == staleness)
    && forall f :: f in feeds && a in f.covered ==> !IsStalerThan(f.staleness, staleness)
  }

  /** What a row means: sums, maxima and unions over the covering feeds. */
  ghost predicate Describes(row: AgencyRow, feeds: seq<Attributed>, a: string) {
    && row.records == RecordSum(feeds, a)
    && IsWorst(row.staleness, feeds, a)
    && IsUnion(row.matchedTrips, feeds, a, MatchedTripsOf(a))
    && IsUnion(row.unmatchedTrips, feeds, a, UnmatchedTripsOf())
    && IsUnion(row.matchedStops, feeds, a, MatchedStopsOf())
    && IsUnion(row.unmatchedStops, feeds, a, UnmatchedStopsOf())
  }

  ghost predicate IsCovered(feeds: seq<Attributed>, a: string) {
    exists f :: f in feeds && a in f.covered
  }

  lemma NoUnionYet(feeds: seq<Attributed>, a: string, idsOf: Attributed -> set<string>)
    requires !IsCovered(feeds, a)
    ensures IsUnion({}, feeds, a, idsOf) && RecordSum(feeds, a) == 0
  {
  }

  lemma DescribesFirst(feeds: seq<Attributed>, f: Attributed, a: string)
    requires !IsCovered(feeds, a) && a in f.covered
    ensures Describes(AddTo(None, f, a), feeds + [f], a)
  {
    assert (feeds + [f])[..|feeds|] == feeds;
    assert f in feeds + [f];
    NoUnionYet(feeds, a, MatchedTripsOf(a));
    NoUnionYet(feeds, a, UnmatchedTripsOf());
    NoUnionYet(feeds, a, MatchedStopsOf());
    NoUnionYet(feeds, a, UnmatchedStopsOf());
  }

  lemma UnionNext(ids: set<string>, feeds: seq<Attributed>, f: Attributed, a: string, idsOf: Attributed -> set<string>)
    requires IsUnion(ids, feeds, a, idsOf)
    ensures IsUnion(if a in f.covered then ids + idsOf(f) else ids, feeds + [f], a, idsOf)
  {
    forall id ensures ReportedBy(feeds + [f], a, idsOf, id) <==>
                        ReportedBy(feeds, a, idsOf, id) || (a in f.covered && id in idsOf(f)) {
      assert f in feeds + [f];
      if ReportedBy(feeds, a, idsOf, id) {
        var g :| g in feeds && a in g.covered && id in idsOf(g);
        assert g in feeds + [f];
      }
    }
  }

  lemma DescribesNext(row: AgencyRow, feeds: seq<Attributed>, f: Attributed, a: string)
    requires Describes(row, feeds, a)
    ensures Describes(if a in f.covered then AddTo(Some(row), f, a) else row, feeds + [f], a)
  {
    assert (feeds + [f])[..|feeds|] == feeds;
    UnionNext(row.matchedTrips, feeds, f, a, MatchedTripsOf(a));
    UnionNext(row.unmatchedTrips, feeds, f, a, UnmatchedTripsOf());
    UnionNext(row.matchedStops, feeds, f, a, MatchedStopsOf());
    UnionNext(row.unmatchedStops, feeds, f, a, UnmatchedStopsOf());
  }

  /** The counts are sizes of unions, the staleness is the worst of any covering feed, and an agency
      has a row exactly when some feed covers it. */
  lemma {:induction false} RowsAreUnions(feeds: seq<Attributed>, a: string)
    ensures RowAfter(feeds, a).Some? <==> IsCovered(feeds, a)
    ensures RowAfter(feeds, a).Some? ==> Describes(RowAfter(feeds, a).value, feeds, a)
  {
    if feeds != [] {
      var before, f := feeds[..|feeds| - 1], feeds[|feeds| - 1];
      RowsAreUnions(before, a);
      assert feeds == before + [f];
      var row := RowAfter(before, a);
      if row.Some? {
        DescribesNext(row.value, before, f, a);
        var g :| g in before && a in g.covered;
        assert g in feeds;
      } else if a in f.covered {
        DescribesFirst(before, f, a);
        assert f in feeds;
      }
    }
  }

  lemma {:induction false} RecordSumConcat(s: seq<Attributed>, t: seq<Attributed>, a: string)
    ensures RecordSum(s + t, a) == RecordSum(s, a) + RecordSum(t, a)
  {
    if t == [] {
      assert s + t == s;
    } else {
      assert (s + t)[..|s + t| - 1] == s + t[..|t| - 1];
      RecordSumConcat(s, t[..|t| - 1], a);
    }
  }

  lemma RecordSumWithout(s: seq<Attributed>, i: nat, a: string)
    requires i < |s|
    ensures RecordSum(s, a) == RecordSum(s[..i] + s[i + 1..], a) + RecordsFor(s[i], a)
  {
    assert s == s[..i + 1] + s[i + 1..];
    RecordSumConcat(s[..i + 1], s[i + 1..], a);
    assert s[..i + 1][..i] == s[..i];
    RecordSumConcat(s[..i], s[i + 1..], a);
  }

  lemma {:induction false} RecordSumPermutes(s: seq<Attributed>, t: seq<Attributed>, a: string)
    requires multiset(s) == multiset(t)
    ensures RecordSum(s, a) == RecordSum(t, a)
    decreases |s|
  {
    if s == [] {
      assert |multiset(t)| == 0;
    } else {
      var i := RemoveCommon(s, t);
      RecordSumPermutes(s[1..], t[..i] + t[i + 1..], a);
      RecordSumWithout(t, i, a);
      RecordSumWithout(s, 0, a);
      assert s[..0] + s[1..] == s[1..];
    }
  }

  /** Whatever order the feeds are visited in, every agency gets the same row. */
  lemma FeedOrderIsIrrelevant(s: seq<Attributed>, t: seq<Attributed>, a: string)
    requires multiset(s) == multiset(t)
    ensures RowAfter(s, a) == RowAfter(t, a)
  {
    forall f ensures f in s <==> f in t { assert f in multiset(s) <==> f in multiset(t); }
    RowsAreUnions(s, a);
    RowsAreUnions(t, a);
    RecordSumPermutes(s, t, a);
    if RowAfter(s, a).Some? {
      assert RowAfter(s, a).value == RowAfter(t, a).value;
    }
  }

  /** Nor does the order in which a feed's records were visited, which only permutes the matched lists. */
  lemma RecordOrderIsIrrelevant(f: Attributed, g: Attributed, feed: FeedState, all: set<string>, s: Schedule, now: int,
                                wallClock: int, row: Option<AgencyRow>, a: string)
    requires Attributes(f, feed, all, s, now, wallClock) && Attributes(g, feed, all, s, now, wallClock)
    ensures f.covered == g.covered && AddTo(row, f, a) == AddTo(row, g, a)
  {
    SameMatches(f.metrics, g.metrics, feed.trips, s, now, a);
    var u, v := AddTo(row, f, a), AddTo(row, g, a);
    assert u.records == v.records && u.staleness == v.staleness;
    assert u.matchedTrips == v.matchedTrips && u.unmatchedTrips == v.unmatchedTrips;
    assert u.matchedStops == v.matchedStops && u.unmatchedStops == v.unmatchedStops;
  }

  lemma SameMatches(m: FeedMetrics, n: FeedMetrics, trips: seq<RealtimeTrip>, s: Schedule, now: int, a: string)
    requires MeasuresFeed(m, trips, s, now) && MeasuresFeed(n, trips, s, now)
    ensures Members(Get(m.matchedByAgency, a)) == Members(Get(n.matchedByAgency, a))
  {
    var groups := Grouped(KeyOfTrip(s), trips);
    forall id ensures id in Get(m.matchedByAgency, a) <==> id in Get(n.matchedByAgency, a) {
      assert id in Get(m.matchedByAgency, a) <==> IsMatch(groups, groups.Keys, s, now, Match(a, id));
    }
  }

  lemma {:induction false} RowsOfSameFeeds(u: seq<Attributed>, v: seq<Attributed>, feeds: seq<FeedState>,
                                           all: set<string>, s: Schedule, now: int, wallClock: int, a: string)
    requires AllAttributed(u, feeds, all, s, now, wallClock) && AllAttributed(v, feeds, all, s, now, wallClock)
    ensures RowAfter(u, a) == RowAfter(v, a)
  {
    if feeds != [] {
      var last := |feeds| - 1;
      assert AllAttributed(u[..last], feeds[..last], all, s, now, wallClock);
      assert AllAttributed(v[..last], feeds[..last], all, s, now, wallClock);
      RowsOfSameFeeds(u[..last], v[..last], feeds[..last], all, s, now, wallClock, a);
      RecordOrderIsIrrelevant(u[last], v[last], feeds[last], all, s, now, wallClock, RowAfter(u[..last], a), a);
    }
  }

  lemma WithoutFeed(u: seq<Attributed>, feeds: seq<FeedState>, i: nat, all: set<string>, s: Schedule, now: int,
                    wallClock: int)
    requires AllAttributed(u, feeds, all, s, now, wallClock) && i < |feeds|
    ensures AllAttributed(u[..i] + u[i + 1..], feeds[..i] + feeds[i + 1..], all, s, now, wallClock)
    ensures Attributes(u[i], feeds[i], all, s, now, wallClock)
  {
    var v, rest := u[..i] + u[i + 1..], feeds[..i] + feeds[i + 1..];
    forall j | 0 <= j < |rest| ensures Attributes(v[j], rest[j], all, s, now, wallClock) {
      var k := if j < i then j else j + 1;
      SkipsOne(u, i, j);
      SkipsOne(feeds, i, j);
      assert Attributes(u[k], feeds[k], all, s, now, wallClock);
    }
  }

  lemma SkipsOne<T>(s: seq<T>, i: nat, j: nat)
    requires i < |s| && j < |s| - 1
    ensures (s[..i] + s[i + 1..])[j] == s[if j < i then j else j + 1]
  {
  }

  lemma WithFeed(f: Attributed, v: seq<Attributed>, feed: FeedState, rest: seq<FeedState>,
                 all: set<string>, s: Schedule, now: int, wallClock: int)
    requires Attributes(f, feed, all, s, now, wallClock) && AllAttributed(v, rest, all, s, now, wallClock)
    ensures AllAttributed([f] + v, [feed] + rest, all, s, now, wallClock)
  {
  }

  lemma PutBack<T>(s: seq<T>, i: nat, t: seq<T>)
    requires i < |s| && multiset(t) == multiset(s[..i] + s[i + 1..])
    ensures multiset([s[i]] + t) == multiset(s)
  {
    WithoutOne(s, i);
    assert multiset([s[i]] + t) == multiset{s[i]} + multiset(t);
  }

  lemma SameLength<T>(s: seq<T>, t: seq<T>)
    requires multiset(s) == multiset(t)
    ensures |s| == |t|
  {
    assert |s| == |multiset(s)| == |multiset(t)| == |t|;
  }

  /** The measurements of one visit, rearranged to the order of another. */
  lemma {:induction false} Rearranged(u: seq<Attributed>, feeds: seq<FeedState>, feeds': seq<FeedState>,
                                      all: set<string>, s: Schedule, now: int,
                                      wallClock: int) returns (v: seq<Attributed>)
    requires AllAttributed(u, feeds, all, s, now, wallClock) && multiset(feeds) == multiset(feeds')
    ensures AllAttributed(v, feeds', all, s, now, wallClock) && multiset(u) == multiset(v)
    decreases |feeds'|
  {
    SameLength(feeds, feeds');
    if feeds' == [] {
      v := [];
    } else {
      var i := RemoveCommon(feeds', feeds);
      WithoutFeed(u, feeds, i, all, s, now, wallClock);
      var v' := Rearranged(u[..i] + u[i + 1..], feeds[..i] + feeds[i + 1..], feeds'[1..], all, s, now, wallClock);
      WithFeed(u[i], v', feeds'[0], feeds'[1..], all, s, now, wallClock);
      PutBack(u, i, v');
      v := [u[i]] + v';
      assert [feeds'[0]] + feeds'[1..] == feeds';
    }
  }

  /** The metrics do not depend on the order in which the feeds, or the records of a feed, are visited. */
  lemma MetricsIgnoreOrder(rows: map<string, AgencyRow>, rows': map<string, AgencyRow>, feeds: seq<FeedState>,
                           feeds': seq<FeedState>,
                           all: set<string>, s: Schedule, now: int, wallClock: int, a: string)
    requires multiset(feeds) == multiset(feeds')
    requires IsTotal(rows, feeds, all, s, now, wallClock) && IsTotal(rows', feeds', all, s, now, wallClock)
    ensures RowOf(rows, a) == RowOf(rows', a)
  {
    var u :| AllAttributed(u, feeds, all, s, now, wallClock) && HoldsRows(rows, u);
    var w :| AllAttributed(w, feeds', all, s, now, wallClock) && HoldsRows(rows', w);
    var v := Rearranged(u, feeds, feeds', all, s, now, wallClock);
    FeedOrderIsIrrelevant(u, v, a);
    RowsOfSameFeeds(v, w, feeds', all, s, now, wallClock, a);
  }
}
