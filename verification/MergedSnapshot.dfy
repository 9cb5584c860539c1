/** The merged view of all realtime feeds, rebuilt from the per-feed maps after every change, and
    the alert queries that read it (internal/gtfs/realtime.go). */
module MergedSnapshot {
  import opened Collections
  import opened RealtimeTypes

  datatype AlertIndex = AlertIndex(
    byTrip: map<string, seq<Alert>>, byRoute: map<string, seq<Alert>>,
    byAgency: map<string, seq<Alert>>, byStop: map<string, seq<Alert>>)

  datatype Snapshot = Snapshot(
    trips: seq<Trip>,
    vehicles: seq<Vehicle>,
    tripLookup: map<string, nat>,
    vehicleByTrip: map<string, nat>,
    vehicleByVehicle: map<string, nat>,
    duplicatedByRoute: map<string, seq<Vehicle>>,
    vehiclesByRoute: map<string, seq<Vehicle>>,
    alerts: AlertIndex)

  /* ---------- Concatenating the feeds in ID order ---------- */

  function ConcatFeeds<T>(ids: seq<string>, feeds: map<string, seq<T>>): seq<T> {
    if ids == [] then [] else ConcatFeeds(ids[..|ids| - 1], feeds) + Get(feeds, ids[|ids| - 1])
  }

  ghost function Merged<T>(feeds: map<string, seq<T>>): seq<T> {
    ConcatFeeds(SortedMembers(feeds.Keys), feeds)
  }

  method MergeFeeds<T>(feeds: map<string, seq<T>>) returns (all: seq<T>)
    ensures all == Merged(feeds)
  {
    var ids := SortStrings(feeds.Keys);
    AscendingUnique(ids, SortedMembers(feeds.Keys));
    all := [];
    assert ids[..0] == [];
    for i := 0 to |ids|
      invariant all == ConcatFeeds(ids[..i], feeds)
    {
      assert ids[..i + 1][..i] == ids[..i];
      all := all + Get(feeds, ids[i]);
    }
    assert ids[..|ids|] == ids;
  }

  /* ---------- Last-match lookups ---------- */

  /** Keys to the position of their last occurrence. */
  function LastIndex(keys: seq<Option<string>>): map<string, nat> {
    if keys == [] then map[]
    else
      var last := |keys| - 1;
      if keys[last].Some? then LastIndex(keys[..last])[keys[last].value := last] else LastIndex(keys[..last])
  }

  /** A lookup knows exactly the keys that occur and points at the last position of each. */
  lemma {:induction false} LastIndexIsLast(keys: seq<Option<string>>, k: string)
    ensures k in LastIndex(keys) <==> exists i :: 0 <= i < |keys| && keys[i] == Some(k)
    ensures k in LastIndex(keys) ==>
              && LastIndex(keys)[k] < |keys| && keys[LastIndex(keys)[k]] == Some(k)
              && forall i :: LastIndex(keys)[k] < i < |keys| ==> keys[i] != Some(k)
  {
    if keys != [] {
      var last := |keys| - 1;
      LastIndexIsLast(keys[..last], k);
      assert forall i :: 0 <= i < last ==> keys[..last][i] == keys[i];
      if keys[last] == Some(k) {
        assert keys[last] == Some(k);
      } else if exists i :: 0 <= i < |keys| && keys[i] == Some(k) {
        var i :| 0 <= i < |keys| && keys[i] == Some(k);
        assert keys[..last][i] == Some(k);
      }
    }
  }

  /* ---------- Which position a trip or vehicle is looked up under ---------- */

  function NonEmpty(s: string): Option<string> {
    if s != "" then Some(s) else None
  }

  function TripKey(t: Trip): Option<string> { NonEmpty(t.id.id) }

  function ServedTrip(v: Vehicle): Option<string> {
    if v.trip.Some? then NonEmpty(v.trip.value.id) else None
  }

  function ServedRoute(v: Vehicle): Option<string> {
    if v.trip.Some? then NonEmpty(v.trip.value.routeID) else None
  }

  function VehicleName(v: Vehicle): Option<string> {
    if v.id.Some? then NonEmpty(v.id.value.id) else None
  }

  /** The route of a DUPLICATED trip, taken from the trip updates when the vehicle omits it. */
  function DuplicatedRoute(trips: seq<Trip>, lookup: map<string, nat>, v: Vehicle): Option<string> {
    if v.trip.None? || !v.trip.value.duplicated then None
    else if v.trip.value.routeID != "" then Some(v.trip.value.routeID)
    else if v.trip.value.id != "" && v.trip.value.id in lookup && lookup[v.trip.value.id] < |trips| then
      NonEmpty(trips[lookup[v.trip.value.id]].id.routeID)
    else None
  }

  /* ---------- Alert buckets ---------- */

  function EntityTrip(e: InformedEntity): Option<string> {
    if e.trip.Some? then Some(e.trip.value.id) else None
  }

  function EntityRoute(e: InformedEntity): Option<string> {
    if e.stopID.None? && e.trip.None? then e.routeID else None
  }

  function EntityAgency(e: InformedEntity): Option<string> {
    if e.routeID.None? && e.trip.None? then e.agencyID else None
  }

  function EntityStop(e: InformedEntity): Option<string> { e.stopID }

  predicate Names(keyOf: InformedEntity -> Option<string>, entities: seq<InformedEntity>, k: string) {
    exists i :: 0 <= i < |entities| && keyOf(entities[i]) == Some(k)
  }

  /** The linear-scan meaning of a bucket: alerts with an ID and an entity filed under k. */
  predicate Informs(keyOf: InformedEntity -> Option<string>, a: Alert, k: string) {
    a.id != "" && Names(keyOf, a.entities, k)
  }

  function FileEntities(bucket: map<string, seq<Alert>>, a: Alert, keyOf: InformedEntity -> Option<string>,
                        entities: seq<InformedEntity>): map<string, seq<Alert>> {
    if entities == [] then bucket
    else
      var last := |entities| - 1;
      FileOne(FileEntities(bucket, a, keyOf, entities[..last]), a, keyOf(entities[last]),
              keyOf(entities[last]).Some? && Names(keyOf, entities[..last], keyOf(entities[last]).value))
  }

  function FileOne(bucket: map<string, seq<Alert>>, a: Alert, key: Option<string>,
                   seen: bool): map<string, seq<Alert>>
  {
    if key.None? || seen then bucket else bucket[key.value := Get(bucket, key.value) + [a]]
  }

  function Buckets(keyOf: InformedEntity -> Option<string>, alerts: seq<Alert>): map<string, seq<Alert>> {
    if alerts == [] then map[]
    else
      var before, a := Buckets(keyOf, alerts[..|alerts| - 1]), alerts[|alerts| - 1];
      if a.id == "" then before else FileEntities(before, a, keyOf, a.entities)
  }

  lemma {:induction false} FiledOnce(bucket: map<string, seq<Alert>>, a: Alert, keyOf: InformedEntity -> Option<string>,
                                     entities: seq<InformedEntity>, k: string)
    ensures Get(FileEntities(bucket, a, keyOf, entities), k) ==
              Get(bucket, k) + if Names(keyOf, entities, k) then [a] else []
  {
    if entities != [] {
      var last := |entities| - 1;
      FiledOnce(bucket, a, keyOf, entities[..last], k);
      assert Names(keyOf, entities, k) <==> Names(keyOf, entities[..last], k) || keyOf(entities[last]) == Some(k) by {
        if Names(keyOf, entities[..last], k) {
          var i :| 0 <= i < last && keyOf(entities[..last][i]) == Some(k);
          assert keyOf(entities[i]) == Some(k);
        }
        if Names(keyOf, entities, k) && keyOf(entities[last]) != Some(k) {
          var i :| 0 <= i < |entities| && keyOf(entities[i]) == Some(k);
          assert keyOf(entities[..last][i]) == Some(k);
        }
      }
    }
  }

  /** The index agrees with a scan: bucket k holds, in order and once each, the alerts informing k. */
  lemma {:induction false} BucketIsScan(keyOf: InformedEntity -> Option<string>, alerts: seq<Alert>, k: string)
    ensures Get(Buckets(keyOf, alerts), k) == Filter((a: Alert) => Informs(keyOf, a, k), alerts)
  {
    if alerts != [] {
      var last := |alerts| - 1;
      var keep := (a: Alert) => Informs(keyOf, a, k);
      BucketIsScan(keyOf, alerts[..last], k);
      assert alerts == alerts[..last] + [alerts[last]];
      FilterSnoc(keep, alerts[..last], alerts[last]);
      if alerts[last].id != "" {
        FiledOnce(Buckets(keyOf, alerts[..last]), alerts[last], keyOf, alerts[last].entities, k);
      }
    }
  }

  ghost predicate SeenIs(seen: set<string>, keyOf: InformedEntity -> Option<string>, entities: seq<InformedEntity>) {
    forall k :: k in seen <==> Names(keyOf, entities, k)
  }

  function FileAlert(index: AlertIndex, a: Alert, entities: seq<InformedEntity>): AlertIndex {
    AlertIndex(
      FileEntities(index.byTrip, a, EntityTrip, entities), FileEntities(index.byRoute, a, EntityRoute, entities),
      FileEntities(index.byAgency, a, EntityAgency, entities), FileEntities(index.byStop, a, EntityStop, entities))
  }

  function IndexOf(alerts: seq<Alert>): AlertIndex {
    AlertIndex(Buckets(EntityTrip, alerts), Buckets(EntityRoute, alerts),
               Buckets(EntityAgency, alerts), Buckets(EntityStop, alerts))
  }

  /** A bucket and its seen set after the first j entities of one alert. */
  ghost predicate FiledUpTo(bucket: map<string, seq<Alert>>, seen: set<string>, base: map<string, seq<Alert>>,
                            keyOf: InformedEntity -> Option<string>, a: Alert, j: nat)
    requires j <= |a.entities|
  {
    bucket == FileEntities(base, a, keyOf, a.entities[..j]) && SeenIs(seen, keyOf, a.entities[..j])
  }

  method FileUnder(bucket: map<string, seq<Alert>>, seen: set<string>, ghost base: map<string, seq<Alert>>,
                   keyOf: InformedEntity -> Option<string>, a: Alert, j: nat)
    returns (bucket': map<string, seq<Alert>>, seen': set<string>)
    requires j < |a.entities| && FiledUpTo(bucket, seen, base, keyOf, a, j)
    ensures FiledUpTo(bucket', seen', base, keyOf, a, j + 1)
  {
    bucket', seen' := bucket, seen;
    var key := keyOf(a.entities[j]);
    if key.Some? && key.value !in seen {
      seen' := seen + {key.value};
      bucket' := bucket[key.value := Get(bucket, key.value) + [a]];
    }
    assert a.entities[..j + 1][..j] == a.entities[..j] && a.entities[..j + 1][j] == a.entities[j];
  }

  /** Files one alert under every key its entities name, keeping a seen set per bucket. */
  method AddAlert(index: AlertIndex, a: Alert) returns (index': AlertIndex)
    ensures index' == FileAlert(index, a, a.entities)
  {
    var byTrip, byRoute, byAgency, byStop := index.byTrip, index.byRoute, index.byAgency, index.byStop;
    var seenTrip, seenRoute, seenAgency, seenStop: set<string> := {}, {}, {}, {};
    assert a.entities[..0] == [];
    for j := 0 to |a.entities|
      invariant FiledUpTo(byTrip, seenTrip, index.byTrip, EntityTrip, a, j)
      invariant FiledUpTo(byRoute, seenRoute, index.byRoute, EntityRoute, a, j)
      invariant FiledUpTo(byAgency, seenAgency, index.byAgency, EntityAgency, a, j)
      invariant FiledUpTo(byStop, seenStop, index.byStop, EntityStop, a, j)
    {
      byTrip, seenTrip := FileUnder(byTrip, seenTrip, index.byTrip, EntityTrip, a, j);
      byRoute, seenRoute := FileUnder(byRoute, seenRoute, index.byRoute, EntityRoute, a, j);
      byAgency, seenAgency := FileUnder(byAgency, seenAgency, index.byAgency, EntityAgency, a, j);
      byStop, seenStop := FileUnder(byStop, seenStop, index.byStop, EntityStop, a, j);
    }
    assert a.entities[..|a.entities|] == a.entities;
    index' := AlertIndex(byTrip, byRoute, byAgency, byStop);
  }

  method IndexAlerts(alerts: seq<Alert>) returns (index: AlertIndex)
    ensures index == IndexOf(alerts)
  {
    index := AlertIndex(map[], map[], map[], map[]);
    assert alerts[..0] == [];
    for i := 0 to |alerts|
      invariant index == IndexOf(alerts[..i])
    {
      assert alerts[..i + 1][..i] == alerts[..i] && alerts[..i + 1][i] == alerts[i];
      if alerts[i].id != "" {
        index := AddAlert(index, alerts[i]);
      }
    }
    assert alerts[..|alerts|] == alerts;
  }

  /* ---------- The published snapshot ---------- */

  function DuplicatedRouteOf(trips: seq<Trip>, lookup: map<string, nat>): Vehicle -> Option<string> {
    v => DuplicatedRoute(trips, lookup, v)
  }

  /** The snapshot as a function of the per-feed maps alone. */
  ghost function Rebuild(f: Feeds): Snapshot {
    var trips, vehicles := Merged(f.trips), Merged(f.vehicles);
    var lookup := LastIndex(Map(TripKey, trips));
    Snapshot(
      trips, vehicles, lookup,
      LastIndex(Map(ServedTrip, vehicles)), LastIndex(Map(VehicleName, vehicles)),
      Grouped(DuplicatedRouteOf(trips, lookup), vehicles), Grouped(ServedRoute, vehicles),
      IndexOf(Merged(f.alerts)))
  }

  function Noted(lookup: map<string, nat>, key: Option<string>, i: nat): map<string, nat> {
    if key.Some? then lookup[key.value := i] else lookup
  }

  lemma NotedNext<T>(keyOf: T -> Option<string>, items: seq<T>, i: nat)
    requires i < |items|
    ensures LastIndex(Map(keyOf, items[..i + 1])) == Noted(LastIndex(Map(keyOf, items[..i])), keyOf(items[i]), i)
  {
    assert Map(keyOf, items[..i + 1])[..i] == Map(keyOf, items[..i]);
  }

  function Joined<T>(groups: map<string, seq<T>>, key: Option<string>, x: T): map<string, seq<T>> {
    if key.Some? then groups[key.value := Get(groups, key.value) + [x]] else groups
  }

  lemma JoinedNext<T>(keyOf: T -> Option<string>, items: seq<T>, i: nat)
    requires i < |items|
    ensures Grouped(keyOf, items[..i + 1]) == Joined(Grouped(keyOf, items[..i]), keyOf(items[i]), items[i])
  {
    assert items[..i + 1][..i] == items[..i];
  }

  method IndexTrips(trips: seq<Trip>) returns (lookup: map<string, nat>)
    ensures lookup == LastIndex(Map(TripKey, trips))
  {
    lookup := map[];
    for i := 0 to |trips|
      invariant lookup == LastIndex(Map(TripKey, trips[..i]))
    {
      NotedNext(TripKey, trips, i);
      if trips[i].id.id != "" {
        lookup := lookup[trips[i].id.id := i];
      }
    }
    assert trips[..|trips|] == trips;
  }

  method IndexVehicles(vehicles: seq<Vehicle>, trips: seq<Trip>, tripLookup: map<string, nat>)
    returns (byTrip: map<string, nat>, byVehicle: map<string, nat>,
             duplicated: map<string, seq<Vehicle>>, byRoute: map<string, seq<Vehicle>>)
    ensures byTrip == LastIndex(Map(ServedTrip, vehicles))
    ensures byVehicle == LastIndex(Map(VehicleName, vehicles))
    ensures duplicated == Grouped(DuplicatedRouteOf(trips, tripLookup), vehicles)
    ensures byRoute == Grouped(ServedRoute, vehicles)
  {
    byTrip, byVehicle, duplicated, byRoute := map[], map[], map[], map[];
    for i := 0 to |vehicles|
      invariant byTrip == LastIndex(Map(ServedTrip, vehicles[..i]))
      invariant byVehicle == LastIndex(Map(VehicleName, vehicles[..i]))
      invariant duplicated == Grouped(DuplicatedRouteOf(trips, tripLookup), vehicles[..i])
      invariant byRoute == Grouped(ServedRoute, vehicles[..i])
    {
      var v := vehicles[i];
      NotedNext(ServedTrip, vehicles, i);
      NotedNext(VehicleName, vehicles, i);
      JoinedNext(DuplicatedRouteOf(trips, tripLookup), vehicles, i);
      JoinedNext(ServedRoute, vehicles, i);
      if v.trip.Some? && v.trip.value.id != "" {
        byTrip := byTrip[v.trip.value.id := i];
      }
      if v.trip.Some? && v.trip.value.routeID != "" {
        byRoute := byRoute[v.trip.value.routeID := Get(byRoute, v.trip.value.routeID) + [v]];
      }
      if v.id.Some? && v.id.value.id != "" {
        byVehicle := byVehicle[v.id.value.id := i];
      }
      var route := DuplicatedRoute(trips, tripLookup, v);
      if route.Some? {
        duplicated := duplicated[route.value := Get(duplicated, route.value) + [v]];
      }
    }
    assert vehicles[..|vehicles|] == vehicles;
  }

  method RebuildMerged(f: Feeds) returns (s: Snapshot)
    ensures s == Rebuild(f)
  {
    var trips := MergeFeeds(f.trips);
    var vehicles := MergeFeeds(f.vehicles);
    var tripLookup := IndexTrips(trips);
    var byTrip, byVehicle, duplicated, byRoute := IndexVehicles(vehicles, trips, tripLookup);
    var alerts := MergeFeeds(f.alerts);
    var index := IndexAlerts(alerts);
    s := Snapshot(trips, vehicles, tripLookup, byTrip, byVehicle, duplicated, byRoute, index);
  }

  /** A lookup by k points at the last item that matches, and knows k exactly when there is one. */
  ghost predicate FindsLast<T>(matches: T -> bool, items: seq<T>, lookup: map<string, nat>, k: string) {
    if k in lookup then
      && lookup[k] < |items| && matches(items[lookup[k]])
      && forall i :: lookup[k] < i < |items| ==> !matches(items[i])
    else
      forall i :: 0 <= i < |items| ==> !matches(items[i])
  }

  lemma LastIndexFindsLast<T>(keyOf: T -> Option<string>, matches: T -> bool, items: seq<T>, k: string)
    requires forall i :: 0 <= i < |items| ==> (matches(items[i]) <==> keyOf(items[i]) == Some(k))
    ensures FindsLast(matches, items, LastIndex(Map(keyOf, items)), k)
  {
    LastIndexIsLast(Map(keyOf, items), k);
    assert forall i :: 0 <= i < |items| ==> Map(keyOf, items)[i] == keyOf(items[i]);
  }

  lemma TripLookup(trips: seq<Trip>, k: string)
    ensures FindsLast((t: Trip) => k != "" && t.id.id == k, trips, LastIndex(Map(TripKey, trips)), k)
  {
    LastIndexFindsLast(TripKey, (t: Trip) => k != "" && t.id.id == k, trips, k);
  }

  lemma ServedTripLookup(vehicles: seq<Vehicle>, k: string)
    ensures FindsLast((v: Vehicle) => k != "" && v.trip.Some? && v.trip.value.id == k, vehicles,
                      LastIndex(Map(ServedTrip, vehicles)), k)
  {
    LastIndexFindsLast(ServedTrip, (v: Vehicle) => k != "" && v.trip.Some? && v.trip.value.id == k, vehicles, k);
  }

  lemma VehicleLookup(vehicles: seq<Vehicle>, k: string)
    ensures FindsLast((v: Vehicle) => k != "" && v.id.Some? && v.id.value.id == k, vehicles,
                      LastIndex(Map(VehicleName, vehicles)), k)
  {
    LastIndexFindsLast(VehicleName, (v: Vehicle) => k != "" && v.id.Some? && v.id.value.id == k, vehicles, k);
  }

  /** Reading the snapshot by key gives the last entity with that ID in sorted-feed order: a trip
      update by its trip ID, a vehicle by the trip it is on, a vehicle by its own ID. Empty IDs are
      not looked up. */
  lemma SnapshotLookups(f: Feeds, s: Snapshot, k: string)
    requires s == Rebuild(f)
    ensures FindsLast((t: Trip) => k != "" && t.id.id == k, s.trips, s.tripLookup, k)
    ensures FindsLast((v: Vehicle) => k != "" && v.trip.Some? && v.trip.value.id == k, s.vehicles, s.vehicleByTrip, k)
    ensures FindsLast((v: Vehicle) => k != "" && v.id.Some? && v.id.value.id == k, s.vehicles, s.vehicleByVehicle, k)
  {
    TripLookup(s.trips, k);
    ServedTripLookup(s.vehicles, k);
    VehicleLookup(s.vehicles, k);
  }

  lemma GroupIsFilterOf<T(!new)>(keyOf: T -> Option<string>, matches: T -> bool, items: seq<T>, k: string)
    requires forall x :: x in items ==> (matches(x) <==> keyOf(x) == Some(k))
    ensures Get(Grouped(keyOf, items), k) == Filter(matches, items)
  {
    GroupIsFilter(keyOf, items, k);
    FilterSame(KeyedBy(keyOf, k), matches, items);
  }

  /** The route the last trip update of a trip names. */
  ghost predicate LastUpdateNames(trips: seq<Trip>, tripID: string, routeID: string) {
    exists i :: 0 <= i < |trips| && trips[i].id.id == tripID && trips[i].id.routeID == routeID
                && forall j :: i < j < |trips| ==> trips[j].id.id != tripID
  }

  /** A DUPLICATED vehicle runs on route k: its own, or if it names none that of the last update of its trip. */
  ghost predicate DuplicatedOn(trips: seq<Trip>, v: Vehicle, k: string) {
    && k != "" && v.trip.Some? && v.trip.value.duplicated
    && if v.trip.value.routeID != "" then v.trip.value.routeID == k
       else v.trip.value.id != "" && LastUpdateNames(trips, v.trip.value.id, k)
  }

  lemma DuplicatedRouteMeans(f: Feeds, s: Snapshot, v: Vehicle, k: string)
    requires s == Rebuild(f)
    ensures DuplicatedRoute(s.trips, s.tripLookup, v) == Some(k) <==> DuplicatedOn(s.trips, v, k)
  {
    if v.trip.Some? {
      var tripID := v.trip.value.id;
      SnapshotLookups(f, s, tripID);
      if tripID in s.tripLookup {
        var at := s.tripLookup[tripID];
        assert LastUpdateNames(s.trips, tripID, s.trips[at].id.routeID);
        assert LastUpdateNames(s.trips, tripID, k) ==> s.trips[at].id.routeID == k;
      }
    }
  }

  /** A route's vehicles are, in order, those on a trip of the route; its duplicated ones those that
      run a DUPLICATED trip of it. */
  lemma SnapshotRouteGroups(f: Feeds, s: Snapshot, k: string)
    requires s == Rebuild(f)
    ensures Get(s.vehiclesByRoute, k)
            == Filter((v: Vehicle) => k != "" && v.trip.Some? && v.trip.value.routeID == k, s.vehicles)
    ensures Get(s.duplicatedByRoute, k) == Filter((v: Vehicle) => DuplicatedOn(s.trips, v, k), s.vehicles)
  {
    GroupIsFilterOf(ServedRoute, (v: Vehicle) => k != "" && v.trip.Some? && v.trip.value.routeID == k, s.vehicles, k);
    forall v | v in s.vehicles
      ensures DuplicatedOn(s.trips, v, k) <==> DuplicatedRouteOf(s.trips, s.tripLookup)(v) == Some(k)
    {
      DuplicatedRouteMeans(f, s, v, k);
    }
    GroupIsFilterOf(DuplicatedRouteOf(s.trips, s.tripLookup), (v: Vehicle) => DuplicatedOn(s.trips, v, k),
                    s.vehicles, k);
  }

  /* ---------- Alert queries ---------- */

  predicate HasID(alerts: seq<Alert>, id: string) {
    exists i :: 0 <= i < |alerts| && alerts[i].id == id
  }

  /** Keeps the first alert of each ID. */
  function Dedupe(alerts: seq<Alert>): seq<Alert> {
    if alerts == [] then []
    else
      var before, a := Dedupe(alerts[..|alerts| - 1]), alerts[|alerts| - 1];
      if HasID(before, a.id) then before else before + [a]
  }

  ghost predicate UniqueIDs(alerts: seq<Alert>) {
    forall i, j :: 0 <= i < j < |alerts| ==> alerts[i].id != alerts[j].id
  }

  lemma {:induction false} DedupeKeepsIDs(alerts: seq<Alert>, id: string)
    ensures UniqueIDs(Dedupe(alerts))
    ensures HasID(Dedupe(alerts), id) <==> HasID(alerts, id)
  {
    if alerts != [] {
      var last := |alerts| - 1;
      var before := Dedupe(alerts[..last]);
      DedupeKeepsIDs(alerts[..last], id);
      HasIDConcat(alerts[..last], [alerts[last]], id);
      HasIDConcat(before, [alerts[last]], id);
      assert alerts == alerts[..last] + [alerts[last]];
    }
  }

  /** More alerts only add at the end, and only IDs not there yet: the first alert of an ID is kept. */
  lemma {:induction false} DedupeGrowsAtEnd(alerts: seq<Alert>, more: seq<Alert>)
    ensures Dedupe(alerts) <= Dedupe(alerts + more)
    ensures forall a :: a in Dedupe(alerts + more)[|Dedupe(alerts)|..] ==> a in more && !HasID(alerts, a.id)
  {
    if more == [] {
      assert alerts + more == alerts;
    } else {
      var last := |more| - 1;
      assert (alerts + more)[..|alerts + more| - 1] == alerts + more[..last];
      DedupeGrowsAtEnd(alerts, more[..last]);
      DedupeKeepsIDs(alerts + more[..last], more[last].id);
      HasIDConcat(alerts, more[..last], more[last].id);
      assert more == more[..last] + [more[last]];
    }
  }

  lemma HasIDConcat(s: seq<Alert>, t: seq<Alert>, id: string)
    ensures HasID(s + t, id) <==> HasID(s, id) || HasID(t, id)
  {
    if HasID(s, id) {
      var i :| 0 <= i < |s| && s[i].id == id;
      assert (s + t)[i].id == id;
    }
    if HasID(t, id) {
      var i :| 0 <= i < |t| && t[i].id == id;
      assert (s + t)[|s| + i].id == id;
    }
  }

  ghost predicate SeenIDs(seen: set<string>, found: seq<Alert>) {
    forall id :: id in seen <==> HasID(found, id)
  }

  lemma SeenAnother(seen: set<string>, found: seq<Alert>, a: Alert)
    requires SeenIDs(seen, found)
    ensures SeenIDs(seen + {a.id}, found + [a])
  {
    assert [a][0] == a;
    forall id ensures id in seen + {a.id} <==> HasID(found + [a], id) {
      HasIDConcat(found, [a], id);
    }
  }

  /** The alerts found, and their IDs, when i candidates have been added to the ones done before. */
  ghost predicate AddedUpTo(done: seq<Alert>, candidates: seq<Alert>, i: nat, seen: set<string>, found: seq<Alert>)
    requires i <= |candidates|
  {
    found == Dedupe(done + candidates[..i]) && SeenIDs(seen, found)
  }

  lemma AddedNext(done: seq<Alert>, candidates: seq<Alert>, i: nat, seen: set<string>, found: seq<Alert>)
    requires i < |candidates| && AddedUpTo(done, candidates, i, seen, found)
    ensures var a := candidates[i];
      if a.id in seen then AddedUpTo(done, candidates, i + 1, seen, found)
      else AddedUpTo(done, candidates, i + 1, seen + {a.id}, found + [a])
  {
    var a, now := candidates[i], done + candidates[..i + 1];
    assert now[..|now| - 1] == done + candidates[..i] && now[|now| - 1] == a;
    assert Dedupe(now) == if HasID(found, a.id) then found else found + [a];
    if a.id !in seen { SeenAnother(seen, found, a); }
  }

  /** One bucket's worth of the query: appends the alerts whose ID has not been seen. */
  method AddUnique(candidates: seq<Alert>, seen: set<string>, found: seq<Alert>, ghost done: seq<Alert>)
    returns (seen': set<string>, found': seq<Alert>)
    requires found == Dedupe(done) && SeenIDs(seen, found)
    ensures found' == Dedupe(done + candidates) && SeenIDs(seen', found')
  {
    seen', found' := seen, found;
    assert done + candidates[..0] == done;
    for i := 0 to |candidates|
      invariant AddedUpTo(done, candidates, i, seen', found')
    {
      AddedNext(done, candidates, i, seen', found');
      if candidates[i].id !in seen' {
        seen', found' := seen' + {candidates[i].id}, found' + [candidates[i]];
      }
    }
    assert candidates[..|candidates|] == candidates;
  }

  function Candidates(bucket: map<string, seq<Alert>>, k: string): seq<Alert> {
    if k != "" then Get(bucket, k) else []
  }

  method GetAlertsByIDs(index: AlertIndex, tripID: string, routeID: string, agencyID: string)
    returns (found: seq<Alert>)
    ensures found == Dedupe(Candidates(index.byTrip, tripID) + Candidates(index.byRoute, routeID)
                            + Candidates(index.byAgency, agencyID))
  {
    var seen: set<string> := {};
    found := [];
    var t, r, g := Candidates(index.byTrip, tripID), Candidates(index.byRoute, routeID),
        Candidates(index.byAgency, agencyID);
    seen, found := AddUnique(t, seen, found, []);
    assert [] + t == t;
    seen, found := AddUnique(r, seen, found, t);
    seen, found := AddUnique(g, seen, found, t + r);
  }

  method GetAlertsForStop(index: AlertIndex, stopID: string) returns (found: seq<Alert>)
    ensures found == Dedupe(Get(index.byStop, stopID))
  {
    var seen;
    seen, found := AddUnique(Get(index.byStop, stopID), {}, [], []);
    assert [] + Get(index.byStop, stopID) == Get(index.byStop, stopID);
  }

  /** An entity for the trip, for the whole route or for the whole agency; empty IDs match nothing. */
  predicate EntityApplies(e: InformedEntity, tripID: string, routeID: string, agencyID: string) {
    || (tripID != "" && e.trip.Some? && e.trip.value.id == tripID)
    || (routeID != "" && e.routeID == Some(routeID) && e.stopID.None? && e.trip.None?)
    || (agencyID != "" && e.agencyID == Some(agencyID) && e.routeID.None? && e.trip.None?)
  }

  /** A scan of an alert's informed entities, with no index. */
  predicate AlertApplies(a: Alert, tripID: string, routeID: string, agencyID: string) {
    a.id != "" && exists e :: e in a.entities && EntityApplies(e, tripID, routeID, agencyID)
  }

  predicate AlertAppliesToStop(a: Alert, stopID: string) {
    a.id != "" && exists e :: e in a.entities && e.stopID == Some(stopID)
  }

  lemma AlertAppliesByKey(a: Alert, tripID: string, routeID: string, agencyID: string)
    ensures AlertApplies(a, tripID, routeID, agencyID) <==>
              || (tripID != "" && Informs(EntityTrip, a, tripID))
              || (routeID != "" && Informs(EntityRoute, a, routeID))
              || (agencyID != "" && Informs(EntityAgency, a, agencyID))
  {
    NamedByEntity(EntityTrip, a.entities, tripID);
    NamedByEntity(EntityRoute, a.entities, routeID);
    NamedByEntity(EntityAgency, a.entities, agencyID);
  }

  lemma NamedByEntity(keyOf: InformedEntity -> Option<string>, entities: seq<InformedEntity>, k: string)
    ensures Names(keyOf, entities, k) <==> exists e :: e in entities && keyOf(e) == Some(k)
  {
    if e :| e in entities && keyOf(e) == Some(k) {
      var i :| 0 <= i < |entities| && entities[i] == e;
      assert keyOf(entities[i]) == Some(k);
    }
  }

  lemma BucketIDsAreScan(keyOf: InformedEntity -> Option<string>, alerts: seq<Alert>, k: string, id: string)
    ensures HasID(Get(Buckets(keyOf, alerts), k), id) <==> exists a :: a in alerts && a.id == id && Informs(keyOf, a, k)
  {
    BucketIsScan(keyOf, alerts, k);
    var hits := Filter((a: Alert) => Informs(keyOf, a, k), alerts);
    assert forall a :: a in hits <==> a in alerts && Informs(keyOf, a, k);
  }

  lemma CandidatesAreScan(keyOf: InformedEntity -> Option<string>, alerts: seq<Alert>, k: string, id: string)
    ensures HasID(Candidates(Buckets(keyOf, alerts), k), id) <==>
              k != "" && exists a :: a in alerts && a.id == id && Informs(keyOf, a, k)
  {
    if k != "" { BucketIDsAreScan(keyOf, alerts, k, id); }
  }

  lemma {:induction false} DedupeWithin(alerts: seq<Alert>, a: Alert)
    requires a in Dedupe(alerts)
    ensures a in alerts
  {
    if a in Dedupe(alerts[..|alerts| - 1]) { DedupeWithin(alerts[..|alerts| - 1], a); }
  }

  /** The indexed query returns each ID once, and exactly the IDs a linear scan finds. */
  lemma AlertQueryIsScan(alerts: seq<Alert>, tripID: string, routeID: string, agencyID: string, id: string)
    ensures var index := IndexOf(alerts);
      var found := Dedupe(Candidates(index.byTrip, tripID) + Candidates(index.byRoute, routeID)
                          + Candidates(index.byAgency, agencyID));
      && UniqueIDs(found)
      && (HasID(found, id) <==> exists a :: a in alerts && a.id == id && AlertApplies(a, tripID, routeID, agencyID))
  {
    var index := IndexOf(alerts);
    var t, r, g := Candidates(index.byTrip, tripID), Candidates(index.byRoute, routeID),
        Candidates(index.byAgency, agencyID);
    DedupeKeepsIDs(t + r + g, id);
    HasIDConcat(t + r, g, id);
    HasIDConcat(t, r, id);
    CandidatesAreScan(EntityTrip, alerts, tripID, id);
    CandidatesAreScan(EntityRoute, alerts, routeID, id);
    CandidatesAreScan(EntityAgency, alerts, agencyID, id);
    forall a { AlertAppliesByKey(a, tripID, routeID, agencyID); }
  }

  /** What the query returns are the alerts themselves, each one that applies. */
  lemma AlertQueryReturnsAlerts(alerts: seq<Alert>, tripID: string, routeID: string, agencyID: string, a: Alert)
    requires var index := IndexOf(alerts);
      a in Dedupe(Candidates(index.byTrip, tripID) + Candidates(index.byRoute, routeID)
                  + Candidates(index.byAgency, agencyID))
    ensures a in alerts && AlertApplies(a, tripID, routeID, agencyID)
  {
    var index := IndexOf(alerts);
    DedupeWithin(Candidates(index.byTrip, tripID) + Candidates(index.byRoute, routeID)
                 + Candidates(index.byAgency, agencyID), a);
    BucketIsScan(EntityTrip, alerts, tripID);
    BucketIsScan(EntityRoute, alerts, routeID);
    BucketIsScan(EntityAgency, alerts, agencyID);
    AlertAppliesByKey(a, tripID, routeID, agencyID);
  }

  /** The stop query: each ID once, exactly those of the alerts with an entity naming the stop. */
  lemma StopQueryIsScan(alerts: seq<Alert>, stopID: string, id: string)
    ensures var found := Dedupe(Get(IndexOf(alerts).byStop, stopID));
      && UniqueIDs(found)
      && (HasID(found, id) <==> exists a :: a in alerts && a.id == id && AlertAppliesToStop(a, stopID))
  {
    DedupeKeepsIDs(Get(IndexOf(alerts).byStop, stopID), id);
    BucketIDsAreScan(EntityStop, alerts, stopID, id);
    forall a: Alert { NamedByEntity(EntityStop, a.entities, stopID); }
  }

  /* ---------- A feed without data contributes nothing ---------- */

  function Without<T>(feeds: map<string, seq<T>>, feed: string): map<string, seq<T>> {
    map id | id in feeds && id != feed :: feeds[id]
  }

  function OtherThan(feed: string): string -> bool {
    id => id != feed
  }

  lemma {:induction false} ConcatSkipsEmpty<T>(ids: seq<string>, feeds: map<string, seq<T>>, feed: string)
    requires Get(feeds, feed) == []
    ensures ConcatFeeds(ids, feeds) == ConcatFeeds(Filter(OtherThan(feed), ids), Without(feeds, feed))
  {
    if ids != [] {
      var last := |ids| - 1;
      ConcatSkipsEmpty(ids[..last], feeds, feed);
      assert ids == ids[..last] + [ids[last]];
      FilterSnoc(OtherThan(feed), ids[..last], ids[last]);
      var kept := Filter(OtherThan(feed), ids[..last]);
      if ids[last] != feed {
        assert Filter(OtherThan(feed), ids) == kept + [ids[last]];
        assert (kept + [ids[last]])[..|kept|] == kept;
      } else {
        assert Filter(OtherThan(feed), ids) == kept;
      }
    }
  }

  lemma {:induction false} FilterKeepsAscending(ids: seq<string>, feed: string)
    requires Ascending(ids)
    ensures Ascending(Filter(OtherThan(feed), ids))
  {
    if ids != [] {
      FilterKeepsAscending(ids[1..], feed);
      var rest := Filter(OtherThan(feed), ids[1..]);
      assert forall j :: 0 <= j < |rest| ==> rest[j] in rest;
      assert forall x :: x in ids[1..] ==> StrLess(ids[0], x);
    }
  }

  lemma MergedSkipsEmpty<T>(feeds: map<string, seq<T>>, feed: string)
    requires Get(feeds, feed) == []
    ensures Merged(feeds) == Merged(Without(feeds, feed))
  {
    var ids := SortedMembers(feeds.Keys);
    ConcatSkipsEmpty(ids, feeds, feed);
    FilterKeepsAscending(ids, feed);
    AscendingUnique(Filter(OtherThan(feed), ids), SortedMembers(Without(feeds, feed).Keys));
  }

  /** A feed whose trips, vehicles and alerts are empty leaves no trace in the snapshot. */
  lemma EmptyFeedContributesNothing(f: Feeds, feed: string)
    requires Get(f.trips, feed) == [] && Get(f.vehicles, feed) == [] && Get(f.alerts, feed) == []
    ensures Rebuild(f) == Rebuild(f.(trips := Without(f.trips, feed), vehicles := Without(f.vehicles, feed),
                                     alerts := Without(f.alerts, feed)))
  {
    MergedSkipsEmpty(f.trips, feed);
    MergedSkipsEmpty(f.vehicles, feed);
    MergedSkipsEmpty(f.alerts, feed);
  }

  /* ---------- Where a feed's entities sit ---------- */

  lemma {:induction false} ConcatFeedsConcat<T>(s: seq<string>, t: seq<string>, feeds: map<string, seq<T>>)
    ensures ConcatFeeds(s + t, feeds) == ConcatFeeds(s, feeds) + ConcatFeeds(t, feeds)
  {
    if t == [] {
      assert s + t == s;
    } else {
      var last := |t| - 1;
      assert (s + t)[..|s + t| - 1] == s + t[..last] && (s + t)[|s + t| - 1] == t[last];
      ConcatFeedsConcat(s, t[..last], feeds);
      assert ConcatFeeds(t, feeds) == ConcatFeeds(t[..last], feeds) + Get(feeds, t[last]);
    }
  }

  lemma {:induction false} ConcatFeedsMember<T>(ids: seq<string>, feeds: map<string, seq<T>>, x: T)
    requires x in ConcatFeeds(ids, feeds)
    ensures exists id :: id in ids && x in Get(feeds, id)
  {
    var last := |ids| - 1;
    if x in ConcatFeeds(ids[..last], feeds) {
      ConcatFeedsMember(ids[..last], feeds, x);
    } else {
      assert ids[last] in ids && x in Get(feeds, ids[last]);
    }
  }

  lemma LaterFeeds<T(!new)>(ids: seq<string>, i: nat, feeds: map<string, seq<T>>, x: T)
    requires Ascending(ids) && i < |ids| && (forall id :: id in ids <==> id in feeds)
    requires x in ConcatFeeds(ids[i + 1..], feeds)
    ensures exists later :: later in feeds && StrLess(ids[i], later) && x in feeds[later]
  {
    ConcatFeedsMember(ids[i + 1..], feeds, x);
    var later :| later in ids[i + 1..] && x in Get(feeds, later);
    assert later in ids;
  }

  lemma ConcatFeedsAround<T>(ids: seq<string>, i: nat, feeds: map<string, seq<T>>)
    requires i < |ids|
    ensures ConcatFeeds(ids, feeds)
            == ConcatFeeds(ids[..i], feeds) + Get(feeds, ids[i]) + ConcatFeeds(ids[i + 1..], feeds)
  {
    assert ids == ids[..i + 1] + ids[i + 1..] && ids[..i + 1][..i] == ids[..i];
    ConcatFeedsConcat(ids[..i + 1], ids[i + 1..], feeds);
  }

  /** The merged list is what precedes a feed, the feed's own list, and what later feeds add. */
  lemma MergedAround<T(!new)>(feeds: map<string, seq<T>>, id: string) returns (before: seq<T>, after: seq<T>)
    requires id in feeds
    ensures Merged(feeds) == before + feeds[id] + after
    ensures forall x :: x in after ==> exists later :: later in feeds && StrLess(id, later) && x in feeds[later]
  {
    var ids := SortedMembers(feeds.Keys);
    assert id in ids;
    var i :| 0 <= i < |ids| && ids[i] == id;
    ConcatFeedsAround(ids, i, feeds);
    before, after := ConcatFeeds(ids[..i], feeds), ConcatFeeds(ids[i + 1..], feeds);
    forall x | x in after ensures exists later :: later in feeds && StrLess(id, later) && x in feeds[later] {
      LaterFeeds(ids, i, feeds, x);
    }
  }
}
