/** Runs of the realtime feed state machine: every sequence of updates and clears, of any feeds, in
    any order (internal/gtfs/realtime.go, internal/gtfs/gtfs_manager.go). */
module FeedRuns {
  import opened Collections
  import opened RealtimeTypes
  import opened RealtimeFeeds
  import opened MergedSnapshot

  datatype Event = UpdateFeed(id: string, update: Update) | ClearFeed(id: string)

  function Step(f: Feeds, e: Event): Feeds {
    match e
    case UpdateFeed(id, u) => Updated(f, id, u)
    case ClearFeed(id) => Cleared(f, id)
  }

  function Run(f: Feeds, events: seq<Event>): Feeds {
    if events == [] then f else Step(Run(f, events[..|events| - 1]), events[|events| - 1])
  }

  const EMPTY: Feeds := Feeds(map[], map[], map[], map[], map[], map[], map[])

  /** A clear forgets everything of its feed, so that the next update of it applies whatever its header
      time, and leaves every other feed as it was. */
  lemma ClearForgetsFeed(f: Feeds, id: string, other: string, header: int)
    ensures var g := Step(f, ClearFeed(id));
      && Get(g.trips, id) == [] && Get(g.vehicles, id) == [] && Get(g.alerts, id) == []
      && Get(g.unattributed, id) == [] && id !in g.lastSeen && id !in g.stamps && id !in g.lastUpdate
      && (0 < header < 0x1_0000_0000_0000_0000 ==> Applies(g, id, Some(header)))
    ensures other != id ==>
              var g := Step(f, ClearFeed(id));
              && Get(g.trips, other) == Get(f.trips, other) && Get(g.vehicles, other) == Get(f.vehicles, other)
              && Get(g.alerts, other) == Get(f.alerts, other)
              && Get(g.unattributed, other) == Get(f.unattributed, other)
              && VehiclesOf(g, other) == VehiclesOf(f, other) && Stamp(g, other) == Stamp(f, other)
              && (other in g.lastUpdate <==> other in f.lastUpdate)
              && (other in g.lastUpdate ==> g.lastUpdate[other] == f.lastUpdate[other])
  {
  }

  /* ---------- What one event does to one feed's vehicles ---------- */

  /** The vehicle state of a feed after an event, by cases. */
  function VehiclesAfter(f: Feeds, e: Event, id: string): VehicleState {
    match e
    case ClearFeed(cleared) => if cleared == id then VehicleState([], map[]) else VehiclesOf(f, id)
    case UpdateFeed(updated, u) =>
      if updated != id || Abandoned(u) || !u.vehicles.Fetched? then VehiclesOf(f, id)
      else if Applies(f, id, u.vehicles.data.createdAt) then ApplyUpdate(VehiclesOf(f, id), KeptVehicles(u), u.now)
      else if id in f.lastSeen then Cleanup(VehiclesOf(f, id), u.now)
      else VehiclesOf(f, id)
  }

  lemma WithVehiclesOf(f: Feeds, updated: string, u: Update, id: string)
    requires u.vehicles.Fetched? && !Abandoned(u)
    ensures VehiclesOf(WithVehicles(f, updated, u), id) == VehiclesAfter(f, UpdateFeed(updated, u), id)
    ensures Stamp(f, id) <= Stamp(WithVehicles(f, updated, u), id)
  {
    var created := u.vehicles.data.createdAt;
    var stamps := if created.Some? then f.stamps[updated := ToUint64(created.value)] else f.stamps;
    StoredAt(f, updated, ApplyUpdate(VehiclesOf(f, updated), KeptVehicles(u), u.now), stamps, id);
    StoredAt(f, updated, Cleanup(VehiclesOf(f, updated), u.now), f.stamps, id);
  }

  lemma VehiclesAfterStep(f: Feeds, e: Event, id: string)
    ensures VehiclesOf(Step(f, e), id) == VehiclesAfter(f, e, id)
  {
    if e.UpdateFeed? && !Abandoned(e.update) {
      var g := if e.update.vehicles.Fetched? then WithVehicles(f, e.id, e.update) else f;
      if e.update.vehicles.Fetched? { WithVehiclesOf(f, e.id, e.update, id); }
      assert Step(f, e).vehicles == g.vehicles && Step(f, e).lastSeen == g.lastSeen;
    }
  }

  lemma {:induction false} FeedTimestampsNeverGoBack(f: Feeds, events: seq<Event>, id: string)
    requires ClearFeed(id) !in events
    ensures Stamp(f, id) <= Stamp(Run(f, events), id)
  {
    if events != [] {
      FeedTimestampsNeverGoBack(f, events[..|events| - 1], id);
    }
  }

  /* ---------- Last-seen keys are the stored keys, in every reachable state ---------- */

  lemma MatchAfterStep(f: Feeds, e: Event, id: string)
    requires KeysMatch(VehiclesOf(f, id))
    ensures KeysMatch(VehiclesOf(Step(f, e), id))
  {
    VehiclesAfterStep(f, e, id);
    var s := VehiclesOf(f, id);
    if VehiclesAfter(f, e, id) != s && e.UpdateFeed? {
      var u := e.update;
      UpdateRetention(s, KeptVehicles(u), u.now, VehicleKey("", "", ""));
      CleanupRetention(s, u.now, VehicleKey("", "", ""));
    }
  }

  lemma {:induction false} LastSeenMatchesStored(events: seq<Event>, id: string)
    ensures KeysMatch(VehiclesOf(Run(EMPTY, events), id))
  {
    if events != [] {
      LastSeenMatchesStored(events[..|events| - 1], id);
      MatchAfterStep(Run(EMPTY, events[..|events| - 1]), events[|events| - 1], id);
    }
  }

  /* ---------- No key is stored twice ---------- */

  /** The feed reports each vehicle once, among those its agency filter lets through. */
  ghost predicate ReportsDistinct(e: Event, id: string) {
    e.UpdateFeed? && e.id == id && !Abandoned(e.update) && e.update.vehicles.Fetched? ==>
      Distinct(Keys(KeptVehicles(e.update)))
  }

  lemma DistinctAfterStep(f: Feeds, e: Event, id: string)
    requires Distinct(Keys(Get(f.vehicles, id))) && ReportsDistinct(e, id)
    ensures Distinct(Keys(Get(Step(f, e).vehicles, id)))
  {
    VehiclesAfterStep(f, e, id);
    var s := VehiclesOf(f, id);
    if VehiclesAfter(f, e, id) != s && e.UpdateFeed? {
      var u := e.update;
      DuplicatesComeFromTheFeed(s, KeptVehicles(u), u.now);
      StillSeenKeys(s.vehicles, Cleanup(s, u.now).lastSeen);
      FilterKeepsDistinct(SeenKeys(Cleanup(s, u.now).lastSeen), Keys(s.vehicles));
    }
  }

  lemma {:induction false} NoKeyStoredTwice(events: seq<Event>, id: string)
    requires forall i :: 0 <= i < |events| ==> ReportsDistinct(events[i], id)
    ensures Distinct(Keys(Get(Run(EMPTY, events).vehicles, id)))
  {
    if events != [] {
      NoKeyStoredTwice(events[..|events| - 1], id);
      DistinctAfterStep(Run(EMPTY, events[..|events| - 1]), events[|events| - 1], id);
    }
  }

  /* ---------- The retention window ---------- */

  /** After a successful vehicle fetch nothing stored has been unseen for more than 15 minutes, and
      nothing seen within 15 minutes has been dropped, whether or not the update was applied. */
  lemma RetentionWindow(events: seq<Event>, id: string, u: Update, k: VehicleKey)
    requires !Abandoned(u) && u.vehicles.Fetched?
    ensures var f, g := Run(EMPTY, events), Run(EMPTY, events + [UpdateFeed(id, u)]);
      && (k in Keys(Get(g.vehicles, id)) <==> k in SeenBy(g, id))
      && (k in SeenBy(g, id) ==> u.now - SeenBy(g, id)[k] <= STALE_VEHICLE_TIMEOUT)
      && (k in SeenBy(f, id) && u.now - SeenBy(f, id)[k] <= STALE_VEHICLE_TIMEOUT ==> k in SeenBy(g, id))
  {
    var e := UpdateFeed(id, u);
    assert (events + [e])[..|events|] == events;
    LastSeenMatchesStored(events, id);
    LastSeenMatchesStored(events + [e], id);
    var f, s := Run(EMPTY, events), VehiclesOf(Run(EMPTY, events), id);
    VehiclesAfterStep(f, e, id);
    UpdateRetention(s, KeptVehicles(u), u.now, k);
    CleanupRetention(s, u.now, k);
    assert VehiclesOf(Run(EMPTY, events + [e]), id) == VehiclesAfter(f, e, id);
    assert k in KeySet(Get(Run(EMPTY, events + [e]).vehicles, id)) <==> k in SeenBy(Run(EMPTY, events + [e]), id);
  }

  /** Between two states with no clear of the feed in between, a vehicle only leaves by expiry: if
      its last-seen time is within 15 minutes of every update since, it is still stored. */
  lemma {:induction false} OnlyExpiryDropsVehicles(f: Feeds, events: seq<Event>, id: string, k: VehicleKey)
    requires KeysMatch(VehiclesOf(f, id)) && k in SeenBy(f, id) && ClearFeed(id) !in events
    requires forall i :: 0 <= i < |events| && events[i].UpdateFeed? && events[i].id == id ==>
               0 <= events[i].update.now - SeenBy(f, id)[k] <= STALE_VEHICLE_TIMEOUT
    ensures KeysMatch(VehiclesOf(Run(f, events), id))
    ensures k in SeenBy(Run(f, events), id) && SeenBy(f, id)[k] <= SeenBy(Run(f, events), id)[k]
  {
    if events != [] {
      var last := |events| - 1;
      var e, g := events[last], Run(f, events[..last]);
      OnlyExpiryDropsVehicles(f, events[..last], id, k);
      VehiclesAfterStep(g, e, id);
      MatchAfterStep(g, e, id);
      if VehiclesAfter(g, e, id) != VehiclesOf(g, id) && e.UpdateFeed? {
        UpdateRetention(VehiclesOf(g, id), KeptVehicles(e.update), e.update.now, k);
        CleanupRetention(VehiclesOf(g, id), e.update.now, k);
      }
    }
  }

  /** With distinct reports, a stored vehicle's timestamp never goes back in any reachable step. */
  lemma ReachableTimestampsNeverGoBack(events: seq<Event>, e: Event, id: string, before: Vehicle, after: Vehicle)
    requires forall i :: 0 <= i < |events| ==> ReportsDistinct(events[i], id)
    requires before in Get(Run(EMPTY, events).vehicles, id) && after in Get(Step(Run(EMPTY, events), e).vehicles, id)
    requires before.id.Some? && after.id.Some? && KeyOf(after) == KeyOf(before)
    requires before.timestamp.Some? && after.timestamp.Some?
    ensures before.timestamp.value <= after.timestamp.value
  {
    var f := Run(EMPTY, events);
    var s := VehiclesOf(f, id);
    NoKeyStoredTwice(events, id);
    LastSeenMatchesStored(events, id);
    VehiclesAfterStep(f, e, id);
    if e.UpdateFeed? && e.id == id && !Abandoned(e.update) && e.update.vehicles.Fetched?
       && Applies(f, id, e.update.vehicles.data.createdAt) {
      TimestampsNeverGoBack(s, KeptVehicles(e.update), e.update.now, before, after);
    } else if after in s.vehicles {
      SameKeySameVehicle(s.vehicles, before, after);
    } else {
      StillSeenWithin(s.vehicles, Cleanup(s, e.update.now).lastSeen, after);
    }
  }

  lemma {:induction false} StillSeenWithin(vehicles: seq<Vehicle>, lastSeen: map<VehicleKey, int>, v: Vehicle)
    requires v in StillSeen(vehicles, lastSeen)
    ensures v in vehicles
  {
    if v in StillSeen(vehicles[..|vehicles| - 1], lastSeen) {
      StillSeenWithin(vehicles[..|vehicles| - 1], lastSeen, v);
    }
  }

  /* ---------- The freshness guard, in header times ---------- */

  lemma AppliedVehicles(f: Feeds, id: string, u: Update)
    requires !Abandoned(u) && u.vehicles.Fetched? && Applies(f, id, u.vehicles.data.createdAt)
    ensures id in Updated(f, id, u).vehicles
    ensures Updated(f, id, u).vehicles[id] == ApplyUpdate(VehiclesOf(f, id), KeptVehicles(u), u.now).vehicles
    ensures var c := u.vehicles.data.createdAt;
      Updated(f, id, u).stamps == if c.Some? then f.stamps[id := ToUint64(c.value)] else f.stamps
  {
  }

  lemma HeaderFits(nanos: int)
    requires 0 <= nanos < 0x1_0000_0000_0000_0000
    ensures ToUint64(nanos) == nanos
  {
  }

  lemma SkippedVehicles(f: Feeds, id: string, u: Update)
    requires !Abandoned(u) && u.vehicles.Fetched? && !Applies(f, id, u.vehicles.data.createdAt)
    ensures Updated(f, id, u).stamps == f.stamps
    ensures Get(Updated(f, id, u).vehicles, id)
            == if id in f.lastSeen then Cleanup(VehiclesOf(f, id), u.now).vehicles else Get(f.vehicles, id)
  {
  }

  /** A header time not after the stored one brings no report in, and the feed's time stays. */
  lemma OldHeaderStoresNothing(f: Feeds, id: string, u: Update, v: Vehicle)
    requires !u.cancelled && (u.allowed == {} || u.lookup.Resolved?) && u.vehicles.Fetched?
    requires u.vehicles.data.createdAt.Some? && 0 <= u.vehicles.data.createdAt.value < 0x1_0000_0000_0000_0000
    requires u.vehicles.data.createdAt.value <= if id in f.stamps then f.stamps[id] else 0
    ensures v in Get(Updated(f, id, u).vehicles, id) ==> v in Get(f.vehicles, id)
    ensures Updated(f, id, u).stamps == f.stamps
  {
    HeaderFits(u.vehicles.data.createdAt.value);
    SkippedVehicles(f, id, u);
    CleanupKeepsVehicles(VehiclesOf(f, id), u.now);
  }

  /** Without a header time, or with one after the stored one, every report with nothing newer stored
      is stored, and the feed's time moves to the header's. */
  lemma NewHeaderStoresReports(f: Feeds, id: string, u: Update, w: Vehicle)
    requires !u.cancelled && (u.allowed == {} || u.lookup.Resolved?) && u.vehicles.Fetched?
    requires var c := u.vehicles.data.createdAt;
      c.None? || (if id in f.stamps then f.stamps[id] else 0) < c.value < 0x1_0000_0000_0000_0000
    requires w in KeptVehicles(u) && w.id.Some? && NothingNewer(Get(f.vehicles, id), w)
    ensures w in Get(Updated(f, id, u).vehicles, id)
    ensures var c := u.vehicles.data.createdAt;
      Updated(f, id, u).stamps == if c.Some? then f.stamps[id := c.value] else f.stamps
  {
    if u.vehicles.data.createdAt.Some? { HeaderFits(u.vehicles.data.createdAt.value); }
    AppliedVehicles(f, id, u);
    FreshReportIsStored(VehiclesOf(f, id), KeptVehicles(u), u.now, w);
  }

  /* ---------- The published trip lookup finds a live vehicle ---------- */

  /** A stored report on a trip makes the trip live. */
  lemma ReportServesTrip(s: VehicleState, incoming: seq<Vehicle>, now: int, w: Vehicle, tripID: string)
    requires w in incoming && w.id.Some? && NothingNewer(s.vehicles, w) && Serves(w, tripID)
    ensures tripID in TripIDsServedBy(Live(s.vehicles, incoming))
  {
    var a, b := SplitAt(incoming, w);
    ReportDecidesItsPlace(s, a, w, b, now);
    AcceptedKeys(s.vehicles, a);
    AcceptedAt(PrevByKey(s.vehicles), a, w, b);
    forall i: nat ensures !KeepsOut(s.vehicles, i, w) {
      assert i < |s.vehicles| ==> s.vehicles[i] in s.vehicles;
    }
    assert w in Live(s.vehicles, incoming);
  }

  /** After an applied update, looking up the trip of a stored report finds a vehicle on that trip
      whose key this update reported, unless a feed later in the order has a vehicle on that trip. */
  lemma TripLookupFindsLiveVehicle(f: Feeds, id: string, u: Update, w: Vehicle, tripID: string)
    requires !Abandoned(u) && u.vehicles.Fetched? && Applies(f, id, u.vehicles.data.createdAt)
    requires w in KeptVehicles(u) && w.id.Some? && NothingNewer(Get(f.vehicles, id), w)
    requires tripID != "" && w.trip.Some? && w.trip.value.id == tripID
    ensures var g := Updated(f, id, u); var s := Rebuild(g);
      && tripID in s.vehicleByTrip && s.vehicleByTrip[tripID] < |s.vehicles|
      && var found := s.vehicles[s.vehicleByTrip[tripID]];
         found.trip.Some? && found.trip.value.id == tripID
         && ((found in g.vehicles[id] && found.id.Some? && KeyOf(found) in Keys(KeptVehicles(u)))
             || exists later :: later in g.vehicles && StrLess(id, later) && found in g.vehicles[later])
  {
    var g, stored, reports := Updated(f, id, u), Get(f.vehicles, id), KeptVehicles(u);
    var live := Live(stored, reports);
    AppliedVehicles(f, id, u);
    ReportServesTrip(VehiclesOf(f, id), reports, u.now, w, tripID);
    LiveVehicleWinsItsTrip(VehiclesOf(f, id), reports, u.now, tripID);
    var before, after := MergedAround(g.vehicles, id);
    SnapshotLookups(g, Rebuild(g), tripID);
    LastServer(before, live, g.vehicles[id], after, Rebuild(g).vehicleByTrip, tripID);
    var found := Rebuild(g).vehicles[Rebuild(g).vehicleByTrip[tripID]];
    if found in live { LiveKeyReported(stored, reports, found); }
  }

  lemma LiveKeyReported(stored: seq<Vehicle>, incoming: seq<Vehicle>, v: Vehicle)
    requires v in Live(stored, incoming)
    ensures v.id.Some? && KeyOf(v) in Keys(incoming)
  {
    AcceptedKeys(stored, incoming);
    var i :| 0 <= i < |Live(stored, incoming)| && Live(stored, incoming)[i] == v;
    assert Keys(Live(stored, incoming))[i] == KeyOf(v);
  }

  lemma LastServer(before: seq<Vehicle>, live: seq<Vehicle>, own: seq<Vehicle>, after: seq<Vehicle>,
                   lookup: map<string, nat>, tripID: string)
    requires live <= own
    requires exists i :: 0 <= i < |live| && Serves(live[i], tripID)
    requires forall i :: |live| <= i < |own| ==> !Serves(own[i], tripID)
    requires tripID != ""
    requires FindsLast((v: Vehicle) => tripID != "" && v.trip.Some? && v.trip.value.id == tripID,
                       before + own + after, lookup, tripID)
    ensures tripID in lookup && lookup[tripID] < |before + own + after|
    ensures var found := (before + own + after)[lookup[tripID]];
            Serves(found, tripID) && (found in live || found in after)
  {
    var all := before + own + after;
    var i :| 0 <= i < |live| && Serves(live[i], tripID);
    assert all[|before| + i] == live[i] && Serves(all[|before| + i], tripID);
    var at := lookup[tripID];
    assert Serves(all[at], tripID) && at >= |before| + i;
    forall m | |before| + |live| <= m < |before| + |own| ensures !Serves(all[m], tripID) {
      assert all[m] == own[m - |before|];
    }
    if at < |before| + |live| {
      assert all[at] == live[at - |before|];
    } else {
      assert all[at] == after[at - |before| - |own|];
    }
  }
}
