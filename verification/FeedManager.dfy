/** The manager that owns the per-feed maps and the published snapshot, and the methods that change
    them under realTimeMutex (internal/gtfs/realtime.go, internal/gtfs/gtfs_manager.go). */
module FeedManager {
  import opened Collections
  import opened RealtimeTypes
  import opened RealtimeFeeds
  import opened MergedSnapshot

  /* ---------- The loops of an applied vehicle update ---------- */

  method IndexByKey(vehicles: seq<Vehicle>) returns (byKey: map<VehicleKey, Vehicle>)
    ensures byKey == PrevByKey(vehicles)
  {
    byKey := map[];
    assert vehicles[..0] == [];
    for i := 0 to |vehicles|
      invariant byKey == PrevByKey(vehicles[..i])
    {
      assert vehicles[..i + 1][..i] == vehicles[..i];
      if vehicles[i].id.Some? {
        byKey := byKey[NewVehicleKey(vehicles[i].id.value) := vehicles[i]];
      }
    }
    assert vehicles[..|vehicles|] == vehicles;
  }

  method AcceptIncoming(prevByKey: map<VehicleKey, Vehicle>, incoming: seq<Vehicle>) returns (valid: seq<Vehicle>)
    ensures valid == Accepted(prevByKey, incoming)
  {
    valid := [];
    assert incoming[..0] == [];
    for i := 0 to |incoming|
      invariant valid == Accepted(prevByKey, incoming[..i])
    {
      assert incoming[..i + 1][..i] == incoming[..i];
      var v := incoming[i];
      if v.id.None? { continue; }
      var key := NewVehicleKey(v.id.value);
      if key in prevByKey && IsVehicleStale(prevByKey[key], v) {
        valid := valid + [prevByKey[key]];
        continue;
      }
      valid := valid + [v];
    }
    assert incoming[..|incoming|] == incoming;
  }

  lemma TouchedNext(lastSeen: map<VehicleKey, int>, current: set<VehicleKey>, key: VehicleKey, now: int)
    ensures Touched(lastSeen, current + {key}, now) == Touched(lastSeen, current, now)[key := now]
  {
  }

  method MarkSeen(lastSeen: map<VehicleKey, int>, live: seq<Vehicle>, now: int)
    returns (seen: map<VehicleKey, int>, current: set<VehicleKey>)
    requires Identified(live)
    ensures current == KeySet(live)
    ensures seen == Touched(lastSeen, current, now)
  {
    seen, current := lastSeen, {};
    assert live[..0] == [];
    for i := 0 to |live|
      invariant current == KeySet(live[..i])
      invariant seen == Touched(lastSeen, current, now)
    {
      var key := NewVehicleKey(live[i].id.value);
      assert live[..i + 1] == live[..i] + [live[i]];
      KeysSnoc(live[..i], live[i]);
      TouchedNext(lastSeen, current, key, now);
      seen := seen[key := now];
      current := current + {key};
    }
    assert live[..|live|] == live;
  }

  /** Visits the map in any order, deleting what has expired. */
  method DeleteExpired(lastSeen: map<VehicleKey, int>, current: set<VehicleKey>, now: int)
    returns (seen: map<VehicleKey, int>)
    ensures seen == Unexpired(lastSeen, current, now)
  {
    seen := lastSeen;
    var rest := lastSeen.Keys;
    while rest != {}
      invariant rest <= lastSeen.Keys
      invariant seen.Keys <= lastSeen.Keys
      invariant forall k :: k in seen ==> seen[k] == lastSeen[k]
      invariant forall k :: k in lastSeen && k in rest ==> k in seen
      invariant forall k :: k in lastSeen && k !in rest ==>
                  (k in seen <==> k in current || now - lastSeen[k] <= STALE_VEHICLE_TIMEOUT)
      decreases rest
    {
      var k :| k in rest;
      rest := rest - {k};
      if k !in current && now - lastSeen[k] > STALE_VEHICLE_TIMEOUT {
        seen := seen - {k};
      }
    }
  }

  method RetainDisappeared(stored: seq<Vehicle>, current: set<VehicleKey>, lastSeen: map<VehicleKey, int>,
                           live: seq<Vehicle>, now: int) returns (all: seq<Vehicle>)
    ensures all == live + Retained(stored, current, lastSeen, TripIDsServedBy(live), now)
  {
    var liveTripIDs := TripIDsServedBy(live);
    all := live;
    assert stored[..0] == [];
    for i := 0 to |stored|
      invariant all == live + Retained(stored[..i], current, lastSeen, liveTripIDs, now)
    {
      assert stored[..i + 1][..i] == stored[..i];
      var pv := stored[i];
      if pv.id.None? { continue; }
      var key := NewVehicleKey(pv.id.value);
      if key !in current {
        if key in lastSeen && now - lastSeen[key] <= STALE_VEHICLE_TIMEOUT {
          all := all + [ReleaseTakenTrip(pv, liveTripIDs)];
        }
      }
    }
    assert stored[..|stored|] == stored;
  }

  /** Every report with nothing newer stored is stored, a stored vehicle with a newer timestamp than a
      report of its key stays, and the recently disappeared vehicles follow. */
  method ApplyVehicleUpdate(s: VehicleState, incoming: seq<Vehicle>, now: int) returns (t: VehicleState)
    ensures t == ApplyUpdate(s, incoming, now)
    ensures forall w :: w in incoming && w.id.Some? && NothingNewer(s.vehicles, w) ==> w in t.vehicles
    ensures forall w, i: nat ::
              w in incoming && w.id.Some? && KeepsOut(s.vehicles, i, w) ==> s.vehicles[i] in t.vehicles
  {
    forall w | w in incoming && w.id.Some? && NothingNewer(s.vehicles, w)
      ensures w in ApplyUpdate(s, incoming, now).vehicles
    {
      FreshReportIsStored(s, incoming, now, w);
    }
    forall w, i: nat | w in incoming && w.id.Some? && KeepsOut(s.vehicles, i, w)
      ensures s.vehicles[i] in ApplyUpdate(s, incoming, now).vehicles
    {
      NewerVehicleStays(s, incoming, now, i, w);
    }
    var prevByKey := IndexByKey(s.vehicles);
    var live := AcceptIncoming(prevByKey, incoming);
    AcceptedKeys(s.vehicles, incoming);
    var seen, current := MarkSeen(s.lastSeen, live, now);
    seen := DeleteExpired(seen, current, now);
    var all := RetainDisappeared(s.vehicles, current, seen, live, now);
    t := VehicleState(all, seen);
  }

  method CleanupExpiredVehicles(s: VehicleState, now: int) returns (t: VehicleState)
    ensures t == Cleanup(s, now)
  {
    var seen := DeleteExpired(s.lastSeen, {}, now);
    var valid: seq<Vehicle> := [];
    assert s.vehicles[..0] == [];
    for i := 0 to |s.vehicles|
      invariant valid == StillSeen(s.vehicles[..i], seen)
    {
      assert s.vehicles[..i + 1][..i] == s.vehicles[..i];
      var v := s.vehicles[i];
      if v.id.Some? && NewVehicleKey(v.id.value) in seen {
        valid := valid + [v];
      }
    }
    assert s.vehicles[..|s.vehicles|] == s.vehicles;
    t := VehicleState(valid, seen);
  }

  method KeepAllowed<T(!new)>(keep: T -> bool, items: seq<T>) returns (kept: seq<T>)
    ensures kept == Filter(keep, items)
  {
    kept := [];
    assert items[..0] == [];
    for i := 0 to |items|
      invariant kept == Filter(keep, items[..i])
    {
      assert items[..i + 1] == items[..i] + [items[i]];
      FilterSnoc(keep, items[..i], items[i]);
      if keep(items[i]) {
        kept := kept + [items[i]];
      }
    }
    assert items[..|items|] == items;
  }

  /* ---------- The manager ---------- */

  function WithTrips(f: Feeds, trips: map<string, seq<Trip>>, unattributed: map<string, seq<Trip>>): Feeds {
    Feeds(trips, unattributed, f.vehicles, f.alerts, f.lastSeen, f.stamps, f.lastUpdate)
  }

  lemma StoredIgnoresTrips(f: Feeds, trips: map<string, seq<Trip>>, unattributed: map<string, seq<Trip>>,
                           id: string, s: VehicleState, stamps: map<string, nat>)
    ensures Stored(WithTrips(f, trips, unattributed), id, s, stamps)
            == WithTrips(Stored(f, id, s, stamps), trips, unattributed)
  {
  }

  /** Storing vehicles reads and writes only the vehicle maps. */
  lemma VehiclesIgnoreTrips(f: Feeds, trips: map<string, seq<Trip>>, unattributed: map<string, seq<Trip>>,
                            id: string, u: Update)
    requires u.vehicles.Fetched? && !Abandoned(u)
    ensures WithVehicles(WithTrips(f, trips, unattributed), id, u)
            == WithTrips(WithVehicles(f, id, u), trips, unattributed)
  {
    var created := u.vehicles.data.createdAt;
    var g, s := WithTrips(f, trips, unattributed), VehiclesOf(f, id);
    assert VehiclesOf(g, id) == s;
    if Applies(f, id, created) {
      var t := ApplyUpdate(s, KeptVehicles(u), u.now);
      var stamps := if created.Some? then f.stamps[id := ToUint64(created.value)] else f.stamps;
      StoredIgnoresTrips(f, trips, unattributed, id, t, stamps);
    } else {
      StoredIgnoresTrips(f, trips, unattributed, id, Cleanup(s, u.now), f.stamps);
    }
  }

  class Manager {
    var feedTrips: map<string, seq<Trip>>
    var feedUnattributedTrips: map<string, seq<Trip>>
    var feedVehicles: map<string, seq<Vehicle>>
    var feedAlerts: map<string, seq<Alert>>
    var feedVehicleLastSeen: map<string, map<VehicleKey, int>>
    var feedVehicleTimestamp: map<string, nat>
    var feedLastUpdate: map<string, int>
    var merged: Snapshot

    /** The per-feed maps as one value. */
    ghost function View(): Feeds
      reads this
    {
      Feeds(feedTrips, feedUnattributedTrips, feedVehicles, feedAlerts,
            feedVehicleLastSeen, feedVehicleTimestamp, feedLastUpdate)
    }

    /** What readers see is the merge of the current maps. */
    ghost predicate Valid()
      reads this
    {
      merged == Rebuild(View())
    }

    constructor ()
      ensures Valid() && View() == Feeds(map[], map[], map[], map[], map[], map[], map[])
    {
      feedTrips, feedUnattributedTrips, feedVehicles, feedAlerts := map[], map[], map[], map[];
      feedVehicleLastSeen, feedVehicleTimestamp, feedLastUpdate := map[], map[], map[];
      new;
      merged := RebuildMerged(Feeds(map[], map[], map[], map[], map[], map[], map[]));
    }

    method Publish()
      modifies this`merged
      ensures Valid() && View() == old(View())
    {
      merged := RebuildMerged(Feeds(feedTrips, feedUnattributedTrips, feedVehicles, feedAlerts,
                                    feedVehicleLastSeen, feedVehicleTimestamp, feedLastUpdate));
    }

    method StoreTrips(id: string, u: Update)
      requires u.trips.Fetched? && !Abandoned(u)
      modifies this`feedTrips, this`feedUnattributedTrips
      ensures feedTrips == old(feedTrips)[id := KeptTrips(u)]
      ensures feedUnattributedTrips == old(feedUnattributedTrips)[id := UnattributedTrips(u)]
    {
      var trips, unattributed := u.trips.data, [];
      if u.allowed != {} {
        trips := KeepAllowed(AllowedTrips(u.allowed, u.lookup.tripAgency), u.trips.data);
        unattributed := KeepAllowed(UnknownTrips(u.lookup.tripAgency), u.trips.data);
      }
      feedTrips := feedTrips[id := trips];
      feedUnattributedTrips := feedUnattributedTrips[id := unattributed];
    }

    /** The freshness guard, then either the update or the cleanup. */
    method StoreVehicles(id: string, u: Update)
      requires u.vehicles.Fetched? && !Abandoned(u)
      modifies this`feedVehicles, this`feedVehicleLastSeen, this`feedVehicleTimestamp
      ensures View() == WithVehicles(old(View()), id, u)
    {
      var incoming := u.vehicles.data.vehicles;
      if u.allowed != {} {
        incoming := KeepAllowed(AllowedVehicles(u.allowed, u.lookup.routeAgency), incoming);
      }
      var s := VehicleState(Get(feedVehicles, id),
                            if id in feedVehicleLastSeen then feedVehicleLastSeen[id] else map[]);
      var apply := true;
      if u.vehicles.data.createdAt.Some? {
        var stamp := ToUint64(u.vehicles.data.createdAt.value);
        if stamp <= (if id in feedVehicleTimestamp then feedVehicleTimestamp[id] else 0) {
          apply := false;
        } else {
          feedVehicleTimestamp := feedVehicleTimestamp[id := stamp];
        }
      }
      if apply {
        var t := ApplyVehicleUpdate(s, incoming, u.now);
        feedVehicles, feedVehicleLastSeen := feedVehicles[id := t.vehicles], feedVehicleLastSeen[id := t.lastSeen];
      } else if id in feedVehicleLastSeen {
        var t := CleanupExpiredVehicles(s, u.now);
        feedVehicles, feedVehicleLastSeen := feedVehicles[id := t.vehicles], feedVehicleLastSeen[id := t.lastSeen];
      }
    }

    method StoreAlerts(id: string, u: Update)
      requires u.alerts.Fetched? && !Abandoned(u)
      modifies this`feedAlerts
      ensures feedAlerts == old(feedAlerts)[id := KeptAlerts(u)]
    {
      var alerts := u.alerts.data;
      if u.allowed != {} {
        alerts := KeepAllowed(AllowedAlerts(u.allowed, u.lookup.routeAgency), alerts);
      }
      feedAlerts := feedAlerts[id := alerts];
    }

    /** Every fetched sub-feed goes into the maps, before anything is published. */
    method StoreFetched(id: string, u: Update)
      requires !Abandoned(u)
      modifies this`feedTrips, this`feedUnattributedTrips, this`feedVehicles, this`feedAlerts,
               this`feedVehicleLastSeen, this`feedVehicleTimestamp, this`feedLastUpdate
      ensures View() == Updated(old(View()), id, u)
    {
      if u.trips.Fetched? {
        StoreTrips(id, u);
      }
      if u.vehicles.Fetched? {
        VehiclesIgnoreTrips(old(View()), feedTrips, feedUnattributedTrips, id, u);
        StoreVehicles(id, u);
      }
      if u.alerts.Fetched? {
        StoreAlerts(id, u);
      }
      if HasNewData(u) {
        feedLastUpdate := feedLastUpdate[id := u.finishedAt];
      }
    }

    /** One poll's update: the new maps are a function of the old ones, the snapshot is republished,
        and the result says whether any sub-feed delivered. */
    method UpdateFeedRealtime(id: string, u: Update) returns (hasNewData: bool)
      requires Valid()
      modifies this
      ensures Valid()
      ensures View() == Updated(old(View()), id, u)
      ensures hasNewData == Succeeds(u)
    {
      if u.cancelled {
        return false;
      }
      if u.allowed != {} && u.lookup.LookupFailed? {
        return false;
      }
      StoreFetched(id, u);
      hasNewData := u.trips.Fetched? || u.vehicles.Fetched? || u.alerts.Fetched?;
      Publish();
    }

    method DropFeed(id: string)
      modifies this`feedTrips, this`feedUnattributedTrips, this`feedVehicles, this`feedAlerts,
               this`feedVehicleLastSeen, this`feedVehicleTimestamp, this`feedLastUpdate
      ensures View() == Cleared(old(View()), id)
    {
      feedTrips := feedTrips[id := []];
      feedUnattributedTrips := feedUnattributedTrips - {id};
      feedVehicles := feedVehicles[id := []];
      feedAlerts := feedAlerts[id := []];
      feedVehicleTimestamp := feedVehicleTimestamp - {id};
      feedVehicleLastSeen := feedVehicleLastSeen - {id};
      feedLastUpdate := feedLastUpdate - {id};
    }

    method ClearFeedData(id: string)
      requires Valid()
      modifies this
      ensures Valid()
      ensures View() == Cleared(old(View()), id)
    {
      DropFeed(id);
      Publish();
    }
  }
}
