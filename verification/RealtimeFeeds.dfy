/** The realtime feed state machine: what one update or one clear does to the per-feed maps
    (internal/gtfs/realtime.go, internal/gtfs/gtfs_manager.go). The functions define each step on
    values; the Manager class in FeedManager.dfy carries the steps out in place. */
module RealtimeFeeds {
  import opened Collections
  import opened RealtimeTypes

  const SECOND: int := 1_000_000_000
  const STALE_VEHICLE_TIMEOUT: int := 15 * 60 * SECOND
  const STALE_FEED_THRESHOLD: int := 5 * 60 * SECOND

  /* ---------- Vehicle identity and freshness ---------- */

  function NewVehicleKey(id: VehicleID): VehicleKey {
    if id.id != "" then VehicleKey(id.id, "", "")
    else if id.labelText != "" then VehicleKey("", id.labelText, "")
    else VehicleKey("", "", id.licensePlate)
  }

  /** A key records which descriptor field it came from: a real ID never equals a label or plate. */
  lemma KeyRecordsItsSource(a: VehicleID, b: VehicleID)
    ensures NewVehicleKey(a) == NewVehicleKey(b) <==>
              if a.id != "" || b.id != "" then a.id == b.id
              else if a.labelText != "" || b.labelText != "" then a.labelText == b.labelText
              else a.licensePlate == b.licensePlate
  {
  }

  predicate IsVehicleStale(existing: Vehicle, incoming: Vehicle) {
    existing.timestamp.Some? && incoming.timestamp.Some? && incoming.timestamp.value < existing.timestamp.value
  }

  function KeyOf(v: Vehicle): VehicleKey
    requires v.id.Some?
  {
    NewVehicleKey(v.id.value)
  }

  predicate Identified(vehicles: seq<Vehicle>) {
    forall i :: 0 <= i < |vehicles| ==> vehicles[i].id.Some?
  }

  /** The keys of the vehicles that have a descriptor, in order. */
  function Keys(vehicles: seq<Vehicle>): (r: seq<VehicleKey>)
    ensures Identified(vehicles) ==> |r| == |vehicles| && forall i :: 0 <= i < |r| ==> r[i] == KeyOf(vehicles[i])
  {
    if vehicles == [] then []
    else
      var last := vehicles[|vehicles| - 1];
      Keys(vehicles[..|vehicles| - 1]) + if last.id.Some? then [KeyOf(last)] else []
  }

  function KeySet(vehicles: seq<Vehicle>): set<VehicleKey> {
    set k | k in Keys(vehicles)
  }

  predicate Serves(v: Vehicle, tripID: string) {
    tripID != "" && v.trip.Some? && v.trip.value.id == tripID
  }

  function TripIDsServedBy(vehicles: seq<Vehicle>): (r: set<string>)
    ensures forall id :: id in r <==> exists v :: v in vehicles && Serves(v, id)
  {
    set v | v in vehicles && v.trip.Some? && v.trip.value.id != "" :: v.trip.value.id
  }

  function ReleaseTakenTrip(retained: Vehicle, liveTripIDs: set<string>): Vehicle {
    if retained.trip.Some? && retained.trip.value.id in liveTripIDs then retained.(trip := None) else retained
  }

  /* ---------- An applied vehicle update ---------- */

  /** The stored vehicles by key; a later duplicate wins. */
  function PrevByKey(vehicles: seq<Vehicle>): map<VehicleKey, Vehicle> {
    if vehicles == [] then map[]
    else
      var last := vehicles[|vehicles| - 1];
      var before := PrevByKey(vehicles[..|vehicles| - 1]);
      if last.id.Some? then before[KeyOf(last) := last] else before
  }

  /** The vehicle kept for an incoming one: a newer stored vehicle wins over a stale update. */
  function Fresher(prev: map<VehicleKey, Vehicle>, v: Vehicle): Vehicle
    requires v.id.Some?
  {
    if KeyOf(v) in prev && IsVehicleStale(prev[KeyOf(v)], v) then prev[KeyOf(v)] else v
  }

  function Accepted(prev: map<VehicleKey, Vehicle>, incoming: seq<Vehicle>): seq<Vehicle> {
    if incoming == [] then []
    else
      var last := incoming[|incoming| - 1];
      Accepted(prev, incoming[..|incoming| - 1]) + if last.id.Some? then [Fresher(prev, last)] else []
  }

  /** The vehicles an applied update reports. */
  function Live(stored: seq<Vehicle>, incoming: seq<Vehicle>): seq<Vehicle> {
    Accepted(PrevByKey(stored), incoming)
  }

  function Touched(lastSeen: map<VehicleKey, int>, current: set<VehicleKey>, now: int): map<VehicleKey, int> {
    map k | k in lastSeen.Keys + current :: if k in current then now else lastSeen[k]
  }

  function Unexpired(lastSeen: map<VehicleKey, int>, current: set<VehicleKey>, now: int): map<VehicleKey, int> {
    map k | k in lastSeen && (k in current || now - lastSeen[k] <= STALE_VEHICLE_TIMEOUT) :: lastSeen[k]
  }

  predicate Keeps(v: Vehicle, current: set<VehicleKey>, lastSeen: map<VehicleKey, int>, now: int) {
    v.id.Some? && KeyOf(v) !in current && KeyOf(v) in lastSeen && now - lastSeen[KeyOf(v)] <= STALE_VEHICLE_TIMEOUT
  }

  /** The recently disappeared vehicles, with any trip a live vehicle serves taken from them. */
  function Retained(stored: seq<Vehicle>, current: set<VehicleKey>, lastSeen: map<VehicleKey, int>,
                    liveTripIDs: set<string>, now: int): seq<Vehicle> {
    if stored == [] then []
    else
      var last := stored[|stored| - 1];
      Retained(stored[..|stored| - 1], current, lastSeen, liveTripIDs, now)
      + if Keeps(last, current, lastSeen, now) then [ReleaseTakenTrip(last, liveTripIDs)] else []
  }

  datatype VehicleState = VehicleState(vehicles: seq<Vehicle>, lastSeen: map<VehicleKey, int>)

  function ApplyUpdate(s: VehicleState, incoming: seq<Vehicle>, now: int): VehicleState {
    var live := Live(s.vehicles, incoming);
    var current := KeySet(live);
    var lastSeen := Unexpired(Touched(s.lastSeen, current, now), current, now);
    VehicleState(live + Retained(s.vehicles, current, lastSeen, TripIDsServedBy(live), now), lastSeen)
  }

  function StillSeen(vehicles: seq<Vehicle>, lastSeen: map<VehicleKey, int>): seq<Vehicle> {
    if vehicles == [] then []
    else
      var last := vehicles[|vehicles| - 1];
      StillSeen(vehicles[..|vehicles| - 1], lastSeen) + if last.id.Some? && KeyOf(last) in lastSeen then [last] else []
  }

  /** What happens instead when the feed as a whole is not newer: only the expiry. */
  function Cleanup(s: VehicleState, now: int): VehicleState {
    var lastSeen := Unexpired(s.lastSeen, {}, now);
    VehicleState(StillSeen(s.vehicles, lastSeen), lastSeen)
  }

  /* ---------- The agency filter ---------- */

  datatype AgencyLookup = LookupFailed | Resolved(routeAgency: map<string, string>, tripAgency: map<string, string>)

  predicate RouteAllowed(routeID: string, allowed: set<string>, routeAgency: map<string, string>) {
    routeID != "" && routeID in routeAgency && routeAgency[routeID] in allowed
  }

  predicate TripAllowed(t: Trip, allowed: set<string>, tripAgency: map<string, string>) {
    t.id.id in tripAgency && tripAgency[t.id.id] in allowed
  }

  predicate VehicleAllowed(v: Vehicle, allowed: set<string>, routeAgency: map<string, string>) {
    v.trip.Some? && RouteAllowed(v.trip.value.routeID, allowed, routeAgency)
  }

  predicate EntityAllowed(e: InformedEntity, allowed: set<string>, routeAgency: map<string, string>) {
    || (e.agencyID.Some? && e.agencyID.value in allowed)
    || (e.routeID.Some? && RouteAllowed(e.routeID.value, allowed, routeAgency))
    || (e.trip.Some? && RouteAllowed(e.trip.value.routeID, allowed, routeAgency))
  }

  predicate AlertAllowed(a: Alert, allowed: set<string>, routeAgency: map<string, string>) {
    exists i :: 0 <= i < |a.entities| && EntityAllowed(a.entities[i], allowed, routeAgency)
  }

  function AllowedTrips(allowed: set<string>, tripAgency: map<string, string>): Trip -> bool {
    t => TripAllowed(t, allowed, tripAgency)
  }

  function UnknownTrips(tripAgency: map<string, string>): Trip -> bool {
    (t: Trip) => t.id.id !in tripAgency
  }

  function AllowedVehicles(allowed: set<string>, routeAgency: map<string, string>): Vehicle -> bool {
    v => VehicleAllowed(v, allowed, routeAgency)
  }

  function AllowedAlerts(allowed: set<string>, routeAgency: map<string, string>): Alert -> bool {
    a => AlertAllowed(a, allowed, routeAgency)
  }

  /* ---------- One update of one feed ---------- */

  /** The outcome of one sub-feed fetch. A sub-feed without a URL is NotConfigured. */
  datatype Fetch<+T> = NotConfigured | Failed | Fetched(data: T)

  /** `createdAt` is the header time in nanoseconds, None when the feed has none. */
  datatype VehicleFeed = VehicleFeed(createdAt: Option<int>, vehicles: seq<Vehicle>)

  /** Everything the environment decides about one update: the fetches, the agency filter and its
      lookups, whether the context expired, and the clock readings. */
  datatype Update = Update(
    cancelled: bool, allowed: set<string>, lookup: AgencyLookup,
    trips: Fetch<seq<Trip>>, vehicles: Fetch<VehicleFeed>, alerts: Fetch<seq<Alert>>,
    now: int, finishedAt: int)

  /** The update gives up before touching anything. */
  predicate Abandoned(u: Update) {
    u.cancelled || (u.allowed != {} && u.lookup.LookupFailed?)
  }

  predicate HasNewData(u: Update) {
    u.trips.Fetched? || u.vehicles.Fetched? || u.alerts.Fetched?
  }

  function KeptTrips(u: Update): seq<Trip>
    requires u.trips.Fetched? && !Abandoned(u)
  {
    if u.allowed == {} then u.trips.data else Filter(AllowedTrips(u.allowed, u.lookup.tripAgency), u.trips.data)
  }

  function UnattributedTrips(u: Update): seq<Trip>
    requires u.trips.Fetched? && !Abandoned(u)
  {
    if u.allowed == {} then [] else Filter(UnknownTrips(u.lookup.tripAgency), u.trips.data)
  }

  function KeptVehicles(u: Update): seq<Vehicle>
    requires u.vehicles.Fetched? && !Abandoned(u)
  {
    if u.allowed == {} then u.vehicles.data.vehicles
    else Filter(AllowedVehicles(u.allowed, u.lookup.routeAgency), u.vehicles.data.vehicles)
  }

  function KeptAlerts(u: Update): seq<Alert>
    requires u.alerts.Fetched? && !Abandoned(u)
  {
    if u.allowed == {} then u.alerts.data else Filter(AllowedAlerts(u.allowed, u.lookup.routeAgency), u.alerts.data)
  }

  /** The conversion of UnixNano to uint64 wraps a time before 1970 round. */
  function ToUint64(nanos: int): nat {
    nanos % 0x1_0000_0000_0000_0000
  }

  function Stamp(f: Feeds, id: string): nat {
    if id in f.stamps then f.stamps[id] else 0
  }

  function SeenBy(f: Feeds, id: string): map<VehicleKey, int> {
    if id in f.lastSeen then f.lastSeen[id] else map[]
  }

  function VehiclesOf(f: Feeds, id: string): VehicleState {
    VehicleState(Get(f.vehicles, id), SeenBy(f, id))
  }

  /** Without a header timestamp freshness cannot be compared, so the update always applies. */
  predicate Applies(f: Feeds, id: string, createdAt: Option<int>) {
    createdAt.None? || ToUint64(createdAt.value) > Stamp(f, id)
  }

  function Stored(f: Feeds, id: string, s: VehicleState, stamps: map<string, nat>): Feeds {
    f.(vehicles := f.vehicles[id := s.vehicles], lastSeen := f.lastSeen[id := s.lastSeen], stamps := stamps)
  }

  function WithVehicles(f: Feeds, id: string, u: Update): Feeds
    requires u.vehicles.Fetched? && !Abandoned(u)
  {
    var created := u.vehicles.data.createdAt;
    if Applies(f, id, created) then
      Stored(f, id, ApplyUpdate(VehiclesOf(f, id), KeptVehicles(u), u.now),
             if created.Some? then f.stamps[id := ToUint64(created.value)] else f.stamps)
    else if id in f.lastSeen then Stored(f, id, Cleanup(VehiclesOf(f, id), u.now), f.stamps)
    else f
  }

  lemma StoredAt(f: Feeds, id: string, s: VehicleState, stamps: map<string, nat>, other: string)
    ensures VehiclesOf(Stored(f, id, s, stamps), other) == if other == id then s else VehiclesOf(f, other)
    ensures Stored(f, id, s, stamps).stamps == stamps
  {
  }

  function Updated(f: Feeds, id: string, u: Update): Feeds {
    if Abandoned(u) then f
    else
      var v := if u.vehicles.Fetched? then WithVehicles(f, id, u) else f;
      Feeds(
        if u.trips.Fetched? then f.trips[id := KeptTrips(u)] else f.trips,
        if u.trips.Fetched? then f.unattributed[id := UnattributedTrips(u)] else f.unattributed,
        v.vehicles,
        if u.alerts.Fetched? then f.alerts[id := KeptAlerts(u)] else f.alerts,
        v.lastSeen, v.stamps,
        if HasNewData(u) then f.lastUpdate[id := u.finishedAt] else f.lastUpdate)
  }

  predicate Succeeds(u: Update) {
    !Abandoned(u) && HasNewData(u)
  }

  /** The circuit breaker: drop everything the feed has. */
  function Cleared(f: Feeds, id: string): Feeds {
    Feeds(f.trips[id := []], f.unattributed - {id}, f.vehicles[id := []], f.alerts[id := []],
          f.lastSeen - {id}, f.stamps - {id}, f.lastUpdate - {id})
  }

  /** An update reports failure when its context expired, its agency lookup failed or nothing was
      fetched, and only then; such an update changes no map at all. One that succeeds is noted. */
  lemma FailedUpdateChangesNothing(f: Feeds, id: string, u: Update)
    ensures Succeeds(u) <==> !u.cancelled && (u.allowed == {} || u.lookup.Resolved?)
                             && (u.trips.Fetched? || u.vehicles.Fetched? || u.alerts.Fetched?)
    ensures !Succeeds(u) ==> Updated(f, id, u) == f
    ensures Succeeds(u) ==> Updated(f, id, u).lastUpdate == f.lastUpdate[id := u.finishedAt]
  {
  }

  /* ---------- Keys through an update ---------- */

  lemma {:induction false} PrevByKeyAt(vehicles: seq<Vehicle>, k: VehicleKey)
    ensures k in PrevByKey(vehicles) <==> k in Keys(vehicles)
    ensures k in PrevByKey(vehicles) ==>
              PrevByKey(vehicles)[k] in vehicles && PrevByKey(vehicles)[k].id.Some?
                  && KeyOf(PrevByKey(vehicles)[k]) == k
  {
    if vehicles != [] {
      PrevByKeyAt(vehicles[..|vehicles| - 1], k);
    }
  }

  lemma {:induction false} AcceptedKeys(stored: seq<Vehicle>, incoming: seq<Vehicle>)
    ensures Identified(Live(stored, incoming))
    ensures Keys(Live(stored, incoming)) == Keys(incoming)
  {
    if incoming != [] {
      var last := incoming[|incoming| - 1];
      var before := Live(stored, incoming[..|incoming| - 1]);
      AcceptedKeys(stored, incoming[..|incoming| - 1]);
      if last.id.Some? {
        PrevByKeyAt(stored, KeyOf(last));
        var kept := Fresher(PrevByKey(stored), last);
        assert (before + [kept])[..|before|] == before;
      }
    }
  }

  lemma {:induction false} KeysConcat(a: seq<Vehicle>, b: seq<Vehicle>)
    ensures Keys(a + b) == Keys(a) + Keys(b)
  {
    if b == [] {
      assert a + b == a;
    } else {
      assert (a + b)[..|a + b| - 1] == a + b[..|b| - 1];
      KeysConcat(a, b[..|b| - 1]);
    }
  }

  lemma KeysSnoc(a: seq<Vehicle>, v: Vehicle)
    requires v.id.Some?
    ensures Keys(a + [v]) == Keys(a) + [KeyOf(v)]
  {
    assert (a + [v])[..|a|] == a;
  }

  predicate KeptKey(k: VehicleKey, current: set<VehicleKey>, lastSeen: map<VehicleKey, int>, now: int) {
    k !in current && k in lastSeen && now - lastSeen[k] <= STALE_VEHICLE_TIMEOUT
  }

  function KeptKeys(current: set<VehicleKey>, lastSeen: map<VehicleKey, int>, now: int): VehicleKey -> bool {
    k => KeptKey(k, current, lastSeen, now)
  }

  lemma {:induction false} RetainedKeys(stored: seq<Vehicle>, current: set<VehicleKey>, lastSeen: map<VehicleKey, int>,
                                        liveTripIDs: set<string>, now: int)
    ensures Identified(Retained(stored, current, lastSeen, liveTripIDs, now))
    ensures Keys(Retained(stored, current, lastSeen, liveTripIDs, now))
            == Filter(KeptKeys(current, lastSeen, now), Keys(stored))
  {
    if stored != [] {
      var last := stored[|stored| - 1];
      var before := Retained(stored[..|stored| - 1], current, lastSeen, liveTripIDs, now);
      RetainedKeys(stored[..|stored| - 1], current, lastSeen, liveTripIDs, now);
      if last.id.Some? {
        FilterSnoc(KeptKeys(current, lastSeen, now), Keys(stored[..|stored| - 1]), KeyOf(last));
        assert Keys(stored) == Keys(stored[..|stored| - 1]) + [KeyOf(last)];
        KeysSnoc(before, ReleaseTakenTrip(last, liveTripIDs));
      } else {
        assert Keys(stored) == Keys(stored[..|stored| - 1]);
      }
      assert before + [] == before;
    }
  }

  function SeenKeys(lastSeen: map<VehicleKey, int>): VehicleKey -> bool {
    k => k in lastSeen
  }

  lemma {:induction false} StillSeenKeys(vehicles: seq<Vehicle>, lastSeen: map<VehicleKey, int>)
    ensures Identified(StillSeen(vehicles, lastSeen))
    ensures Keys(StillSeen(vehicles, lastSeen)) == Filter(SeenKeys(lastSeen), Keys(vehicles))
  {
    if vehicles != [] {
      var last := vehicles[|vehicles| - 1];
      var before := StillSeen(vehicles[..|vehicles| - 1], lastSeen);
      StillSeenKeys(vehicles[..|vehicles| - 1], lastSeen);
      if last.id.Some? {
        FilterSnoc(SeenKeys(lastSeen), Keys(vehicles[..|vehicles| - 1]), KeyOf(last));
        assert Keys(vehicles) == Keys(vehicles[..|vehicles| - 1]) + [KeyOf(last)];
        KeysSnoc(before, last);
      } else {
        assert Keys(vehicles) == Keys(vehicles[..|vehicles| - 1]);
      }
      assert before + [] == before;
    }
  }

  /** The keys after an applied update: those reported, then those stored, unreported and unexpired. */
  lemma AppliedKeys(s: VehicleState, incoming: seq<Vehicle>, now: int)
    ensures var t := ApplyUpdate(s, incoming, now);
      && Identified(t.vehicles)
      && Keys(t.vehicles) == Keys(incoming) + Filter(KeptKeys(KeySet(incoming), t.lastSeen, now), Keys(s.vehicles))
  {
    var live := Live(s.vehicles, incoming);
    AcceptedKeys(s.vehicles, incoming);
    var current := KeySet(live);
    var t := ApplyUpdate(s, incoming, now);
    RetainedKeys(s.vehicles, current, t.lastSeen, TripIDsServedBy(live), now);
    KeysConcat(live, Retained(s.vehicles, current, t.lastSeen, TripIDsServedBy(live), now));
  }

  /* ---------- Last-seen keys are the stored keys; retention ---------- */

  /** The last-seen entries are exactly those of the stored vehicles. */
  ghost predicate KeysMatch(s: VehicleState) {
    Identified(s.vehicles) && KeySet(s.vehicles) == s.lastSeen.Keys
  }

  /** The last-seen entries an applied update leaves. */
  lemma SeenAfterUpdate(s: VehicleState, incoming: seq<Vehicle>, now: int, k: VehicleKey)
    ensures var t := ApplyUpdate(s, incoming, now);
      && (k in t.lastSeen <==> k in Keys(incoming) || (k in s.lastSeen && now - s.lastSeen[k] <= STALE_VEHICLE_TIMEOUT))
      && (k in t.lastSeen ==> t.lastSeen[k] == if k in Keys(incoming) then now else s.lastSeen[k])
  {
    AcceptedKeys(s.vehicles, incoming);
    assert k in KeySet(Live(s.vehicles, incoming)) <==> k in Keys(incoming);
  }

  /** An applied update keeps exactly the reported keys and those unseen for at most 15 minutes. */
  lemma UpdateRetention(s: VehicleState, incoming: seq<Vehicle>, now: int, k: VehicleKey)
    requires KeysMatch(s)
    ensures var t := ApplyUpdate(s, incoming, now);
      && KeysMatch(t)
      && (k in t.lastSeen <==> k in Keys(incoming) || (k in s.lastSeen && now - s.lastSeen[k] <= STALE_VEHICLE_TIMEOUT))
      && (k in t.lastSeen ==> t.lastSeen[k] == if k in Keys(incoming) then now else s.lastSeen[k])
  {
    var t := ApplyUpdate(s, incoming, now);
    AppliedKeys(s, incoming, now);
    forall x ensures x in Keys(t.vehicles) <==> x in t.lastSeen { SeenAfterUpdate(s, incoming, now, x); }
    SeenAfterUpdate(s, incoming, now, k);
  }

  /** The cleanup of a skipped update keeps exactly the keys unseen for at most 15 minutes. */
  lemma CleanupRetention(s: VehicleState, now: int, k: VehicleKey)
    requires KeysMatch(s)
    ensures var t := Cleanup(s, now);
      && KeysMatch(t)
      && (k in t.lastSeen <==> k in s.lastSeen && now - s.lastSeen[k] <= STALE_VEHICLE_TIMEOUT)
      && (k in t.lastSeen ==> t.lastSeen[k] == s.lastSeen[k])
  {
    var t := Cleanup(s, now);
    StillSeenKeys(s.vehicles, t.lastSeen);
    assert t.lastSeen.Keys <= KeySet(s.vehicles);
    assert KeySet(t.vehicles) == t.lastSeen.Keys by {
      forall x ensures x in KeySet(t.vehicles) <==> x in t.lastSeen.Keys {
        assert x in Filter(SeenKeys(t.lastSeen), Keys(s.vehicles)) <==> x in KeySet(s.vehicles) && x in t.lastSeen;
      }
    }
  }

  /* ---------- No key twice ---------- */

  lemma DistinctConcat<T(!new)>(a: seq<T>, b: seq<T>)
    ensures Distinct(a + b) <==> Distinct(a) && Distinct(b) && forall x :: x in a ==> x !in b
  {
    if Distinct(a + b) {
      forall i, j | 0 <= i < j < |a| ensures a[i] != a[j] { assert (a + b)[i] != (a + b)[j]; }
      forall i, j | 0 <= i < j < |b| ensures b[i] != b[j] { assert (a + b)[|a| + i] != (a + b)[|a| + j]; }
      forall x | x in a ensures x !in b {
        var i :| 0 <= i < |a| && a[i] == x;
        forall j | 0 <= j < |b| ensures b[j] != x { assert (a + b)[i] != (a + b)[|a| + j]; }
      }
    }
    if Distinct(a) && Distinct(b) && forall x :: x in a ==> x !in b {
      forall i, j | 0 <= i < j < |a + b| ensures (a + b)[i] != (a + b)[j] {
        if i < |a| { assert (a + b)[i] == a[i] && a[i] in a; }
        if j >= |a| { assert (a + b)[j] == b[j - |a|] && b[j - |a|] in b; }
      }
    }
  }

  /** With no stored duplicate, an update stores a key twice exactly when the feed reported it twice. */
  lemma DuplicatesComeFromTheFeed(s: VehicleState, incoming: seq<Vehicle>, now: int)
    requires Distinct(Keys(s.vehicles))
    ensures Distinct(Keys(ApplyUpdate(s, incoming, now).vehicles)) <==> Distinct(Keys(incoming))
  {
    var t := ApplyUpdate(s, incoming, now);
    AppliedKeys(s, incoming, now);
    var kept := Filter(KeptKeys(KeySet(incoming), t.lastSeen, now), Keys(s.vehicles));
    FilterKeepsDistinct(KeptKeys(KeySet(incoming), t.lastSeen, now), Keys(s.vehicles));
    DistinctConcat(Keys(incoming), kept);
    assert forall x :: x in Keys(incoming) ==> x in KeySet(incoming);
  }

  /* ---------- Trips of retained vehicles ---------- */

  lemma {:induction false} RetainedFrom(stored: seq<Vehicle>, current: set<VehicleKey>, lastSeen: map<VehicleKey, int>,
                                        liveTripIDs: set<string>, now: int, r: Vehicle)
    requires r in Retained(stored, current, lastSeen, liveTripIDs, now)
    ensures exists x :: x in stored && Keeps(x, current, lastSeen, now) && r == ReleaseTakenTrip(x, liveTripIDs)
  {
    var last := stored[|stored| - 1];
    if r in Retained(stored[..|stored| - 1], current, lastSeen, liveTripIDs, now) {
      RetainedFrom(stored[..|stored| - 1], current, lastSeen, liveTripIDs, now, r);
    } else {
      assert r == ReleaseTakenTrip(last, liveTripIDs) && last in stored;
    }
  }

  /** The stored list is the live vehicles followed by the retained ones, and no retained vehicle
      serves a trip that a live one serves: the last match for such a trip is a live vehicle. */
  lemma LiveVehicleWinsItsTrip(s: VehicleState, incoming: seq<Vehicle>, now: int, tripID: string)
    requires tripID in TripIDsServedBy(Live(s.vehicles, incoming))
    ensures var t, live := ApplyUpdate(s, incoming, now), Live(s.vehicles, incoming);
      && live <= t.vehicles
      && (exists i :: 0 <= i < |live| && Serves(live[i], tripID))
      && forall i :: |live| <= i < |t.vehicles| ==> !Serves(t.vehicles[i], tripID)
  {
    var t, live := ApplyUpdate(s, incoming, now), Live(s.vehicles, incoming);
    var current, taken := KeySet(live), TripIDsServedBy(live);
    var kept := Retained(s.vehicles, current, t.lastSeen, taken, now);
    assert t.vehicles == live + kept;
    forall i | |live| <= i < |t.vehicles| ensures !Serves(t.vehicles[i], tripID) {
      assert t.vehicles[i] == kept[i - |live|] && kept[i - |live|] in kept;
      RetainedFrom(s.vehicles, current, t.lastSeen, taken, now, t.vehicles[i]);
    }
  }

  /* ---------- Vehicle timestamps ---------- */

  lemma {:induction false} AcceptedFrom(prev: map<VehicleKey, Vehicle>, incoming: seq<Vehicle>, v: Vehicle)
    requires v in Accepted(prev, incoming)
    ensures exists w :: w in incoming && w.id.Some? && v == Fresher(prev, w)
  {
    var last := incoming[|incoming| - 1];
    if v in Accepted(prev, incoming[..|incoming| - 1]) {
      AcceptedFrom(prev, incoming[..|incoming| - 1], v);
    } else {
      assert last in incoming && v == Fresher(prev, last);
    }
  }

  lemma SameKeySameVehicle(vehicles: seq<Vehicle>, a: Vehicle, b: Vehicle)
    requires Identified(vehicles) && Distinct(Keys(vehicles))
    requires a in vehicles && b in vehicles && KeyOf(a) == KeyOf(b)
    ensures a == b
  {
    var i :| 0 <= i < |vehicles| && vehicles[i] == a;
    var j :| 0 <= j < |vehicles| && vehicles[j] == b;
    assert Keys(vehicles)[i] == Keys(vehicles)[j];
  }

  /** A stored vehicle's timestamp never goes back across an update when both are set. */
  lemma TimestampsNeverGoBack(s: VehicleState, incoming: seq<Vehicle>, now: int, before: Vehicle, after: Vehicle)
    requires Identified(s.vehicles) && Distinct(Keys(s.vehicles)) && before in s.vehicles
    requires after in ApplyUpdate(s, incoming, now).vehicles && after.id.Some? && KeyOf(after) == KeyOf(before)
    requires before.timestamp.Some? && after.timestamp.Some?
    ensures before.timestamp.value <= after.timestamp.value
  {
    var t, live := ApplyUpdate(s, incoming, now), Live(s.vehicles, incoming);
    var current, taken := KeySet(live), TripIDsServedBy(live);
    var k := KeyOf(before);
    if after in live {
      AcceptedFrom(PrevByKey(s.vehicles), incoming, after);
      var w :| w in incoming && w.id.Some? && after == Fresher(PrevByKey(s.vehicles), w);
      PrevByKeyAt(s.vehicles, KeyOf(w));
      PrevByKeyAt(s.vehicles, k);
      SameKeySameVehicle(s.vehicles, before, PrevByKey(s.vehicles)[k]);
    } else {
      RetainedFrom(s.vehicles, current, t.lastSeen, taken, now, after);
      var x :| x in s.vehicles && Keeps(x, current, t.lastSeen, now) && after == ReleaseTakenTrip(x, taken);
      SameKeySameVehicle(s.vehicles, before, x);
    }
  }

  /* ---------- What an applied update stores, in the vehicles' own fields ---------- */

  /** The i-th stored vehicle keeps report w out: the last one of its key, with a strictly newer timestamp. */
  ghost predicate KeepsOut(stored: seq<Vehicle>, i: nat, w: Vehicle)
    requires w.id.Some?
  {
    && i < |stored| && stored[i].id.Some? && KeyOf(stored[i]) == KeyOf(w)
    && (forall j :: i < j < |stored| && stored[j].id.Some? ==> KeyOf(stored[j]) != KeyOf(w))
    && stored[i].timestamp.Some? && w.timestamp.Some? && w.timestamp.value < stored[i].timestamp.value
  }

  lemma {:induction false} PrevByKeyIsLast(vehicles: seq<Vehicle>, k: VehicleKey) returns (i: nat)
    requires k in PrevByKey(vehicles)
    ensures i < |vehicles| && vehicles[i] == PrevByKey(vehicles)[k] && vehicles[i].id.Some? && KeyOf(vehicles[i]) == k
    ensures forall j :: i < j < |vehicles| && vehicles[j].id.Some? ==> KeyOf(vehicles[j]) != k
  {
    var last := |vehicles| - 1;
    if vehicles[last].id.Some? && KeyOf(vehicles[last]) == k {
      i := last;
    } else {
      i := PrevByKeyIsLast(vehicles[..last], k);
    }
  }

  lemma {:induction false} KeyReported(vehicles: seq<Vehicle>, k: VehicleKey)
    ensures k in Keys(vehicles) <==> exists v :: v in vehicles && v.id.Some? && KeyOf(v) == k
  {
    if vehicles != [] {
      var last := |vehicles| - 1;
      KeyReported(vehicles[..last], k);
      assert vehicles == vehicles[..last] + [vehicles[last]];
    }
  }

  lemma {:induction false} AcceptedAt(prev: map<VehicleKey, Vehicle>, a: seq<Vehicle>, w: Vehicle, b: seq<Vehicle>)
    requires w.id.Some?
    ensures |Accepted(prev, a)| < |Accepted(prev, a + [w] + b)|
    ensures Accepted(prev, a + [w] + b)[|Accepted(prev, a)|] == Fresher(prev, w)
  {
    var all := a + [w] + b;
    if b == [] {
      assert all[..|all| - 1] == a;
    } else {
      assert all[..|all| - 1] == a + [w] + b[..|b| - 1];
      AcceptedAt(prev, a, w, b[..|b| - 1]);
    }
  }

  lemma FresherVehicle(stored: seq<Vehicle>, w: Vehicle)
    requires w.id.Some?
    ensures forall i: nat :: KeepsOut(stored, i, w) ==> Fresher(PrevByKey(stored), w) == stored[i]
    ensures (forall i: nat :: !KeepsOut(stored, i, w)) ==> Fresher(PrevByKey(stored), w) == w
  {
    var prev, k := PrevByKey(stored), KeyOf(w);
    PrevByKeyAt(stored, k);
    KeyReported(stored, k);
    if k in prev {
      var last := PrevByKeyIsLast(stored, k);
      assert IsVehicleStale(prev[k], w) ==> KeepsOut(stored, last, w);
      assert forall i: nat :: KeepsOut(stored, i, w) ==> i == last;
    }
  }

  /** Each report decides the vehicle at its own place: the stored vehicle that keeps it out, or the
      report itself when none does. */
  lemma ReportDecidesItsPlace(s: VehicleState, a: seq<Vehicle>, w: Vehicle, b: seq<Vehicle>, now: int)
    requires w.id.Some?
    ensures var all, n := ApplyUpdate(s, a + [w] + b, now).vehicles, |Keys(a)|;
      && n < |all|
      && (forall i: nat :: KeepsOut(s.vehicles, i, w) ==> all[n] == s.vehicles[i])
      && ((forall i: nat :: !KeepsOut(s.vehicles, i, w)) ==> all[n] == w)
  {
    AcceptedKeys(s.vehicles, a);
    AcceptedAt(PrevByKey(s.vehicles), a, w, b);
    FresherVehicle(s.vehicles, w);
    var live := Live(s.vehicles, a + [w] + b);
    assert live <= ApplyUpdate(s, a + [w] + b, now).vehicles;
  }

  /** No stored vehicle of the report's key has a timestamp newer than the report's. */
  ghost predicate NothingNewer(stored: seq<Vehicle>, w: Vehicle)
    requires w.id.Some?
  {
    forall p :: p in stored && p.id.Some? && KeyOf(p) == KeyOf(w) ==>
      p.timestamp.None? || w.timestamp.None? || p.timestamp.value <= w.timestamp.value
  }

  lemma SplitAt(vehicles: seq<Vehicle>, w: Vehicle) returns (a: seq<Vehicle>, b: seq<Vehicle>)
    requires w in vehicles
    ensures vehicles == a + [w] + b
  {
    var i :| 0 <= i < |vehicles| && vehicles[i] == w;
    a, b := vehicles[..i], vehicles[i + 1..];
  }

  /** A report as new as what is stored is stored itself. */
  lemma FreshReportIsStored(s: VehicleState, incoming: seq<Vehicle>, now: int, w: Vehicle)
    requires w in incoming && w.id.Some? && NothingNewer(s.vehicles, w)
    ensures w in ApplyUpdate(s, incoming, now).vehicles
  {
    var a, b := SplitAt(incoming, w);
    ReportDecidesItsPlace(s, a, w, b, now);
    var all, n := ApplyUpdate(s, incoming, now).vehicles, |Keys(a)|;
    forall i: nat ensures !KeepsOut(s.vehicles, i, w) {
      assert i < |s.vehicles| ==> s.vehicles[i] in s.vehicles;
    }
    assert all[n] in all;
  }

  lemma OnlyTheNewerStays(s: VehicleState, incoming: seq<Vehicle>, now: int, i: nat, v: Vehicle)
    requires i < |s.vehicles| && s.vehicles[i].id.Some? && v.id.Some? && KeyOf(v) == KeyOf(s.vehicles[i])
    requires KeyOf(v) in Keys(incoming)
    requires forall w :: w in incoming && w.id.Some? && KeyOf(w) == KeyOf(v) ==> KeepsOut(s.vehicles, i, w)
    requires v in ApplyUpdate(s, incoming, now).vehicles
    ensures v == s.vehicles[i]
  {
    var t, live := ApplyUpdate(s, incoming, now), Live(s.vehicles, incoming);
    AcceptedKeys(s.vehicles, incoming);
    if v in live {
      AcceptedFrom(PrevByKey(s.vehicles), incoming, v);
      var w :| w in incoming && w.id.Some? && v == Fresher(PrevByKey(s.vehicles), w);
      PrevByKeyAt(s.vehicles, KeyOf(w));
      FresherVehicle(s.vehicles, w);
    } else {
      RetainedFrom(s.vehicles, KeySet(live), t.lastSeen, TripIDsServedBy(live), now, v);
    }
  }

  /** A strictly newer stored vehicle stays, and when every report of its key is older nothing else
      of that key is stored. */
  lemma NewerVehicleStays(s: VehicleState, incoming: seq<Vehicle>, now: int, i: nat, w: Vehicle)
    requires w in incoming && w.id.Some? && KeepsOut(s.vehicles, i, w)
    ensures s.vehicles[i] in ApplyUpdate(s, incoming, now).vehicles
    ensures (forall r :: r in incoming && r.id.Some? && KeyOf(r) == KeyOf(w) ==> KeepsOut(s.vehicles, i, r)) ==>
              forall v :: v in ApplyUpdate(s, incoming, now).vehicles && v.id.Some? && KeyOf(v) == KeyOf(w) ==>
                v == s.vehicles[i]
  {
    var a, b := SplitAt(incoming, w);
    ReportDecidesItsPlace(s, a, w, b, now);
    assert ApplyUpdate(s, incoming, now).vehicles[|Keys(a)|] in ApplyUpdate(s, incoming, now).vehicles;
    if forall r :: r in incoming && r.id.Some? && KeyOf(r) == KeyOf(w) ==> KeepsOut(s.vehicles, i, r) {
      forall v | v in ApplyUpdate(s, incoming, now).vehicles && v.id.Some? && KeyOf(v) == KeyOf(w)
        ensures v == s.vehicles[i]
      {
        KeyReported(incoming, KeyOf(w));
        OnlyTheNewerStays(s, incoming, now, i, v);
      }
    }
  }

  /** A stored vehicle the update does not report, seen within the last 15 minutes. */
  ghost predicate Disappeared(s: VehicleState, incoming: seq<Vehicle>, now: int, x: Vehicle) {
    && x in s.vehicles && x.id.Some?
    && (forall w :: w in incoming && w.id.Some? ==> KeyOf(w) != KeyOf(x))
    && KeyOf(x) in s.lastSeen && now - s.lastSeen[KeyOf(x)] <= STALE_VEHICLE_TIMEOUT
  }

  /** Some vehicle of the list is on the trip x was on. */
  ghost predicate TripTaken(vehicles: seq<Vehicle>, x: Vehicle) {
    x.trip.Some? && x.trip.value.id != "" &&
    exists v :: v in vehicles && v.trip.Some? && v.trip.value.id == x.trip.value.id
  }

  lemma {:induction false} RetainedHas(stored: seq<Vehicle>, current: set<VehicleKey>, lastSeen: map<VehicleKey, int>,
                                       liveTripIDs: set<string>, now: int, x: Vehicle)
    requires x in stored && Keeps(x, current, lastSeen, now)
    ensures ReleaseTakenTrip(x, liveTripIDs) in Retained(stored, current, lastSeen, liveTripIDs, now)
  {
    var last := |stored| - 1;
    assert stored == stored[..last] + [stored[last]];
    if x in stored[..last] {
      RetainedHas(stored[..last], current, lastSeen, liveTripIDs, now, x);
    }
  }

  /** Behind the reported vehicles stand exactly the recently disappeared ones, each as it was stored
      except that it gives up a trip a reported vehicle is on. */
  lemma RetainedVehicles(s: VehicleState, incoming: seq<Vehicle>, now: int, r: Vehicle)
    ensures var all, n := ApplyUpdate(s, incoming, now).vehicles, |Keys(incoming)|;
      && n <= |all|
      && (r in all[n..] <==> exists x :: Disappeared(s, incoming, now, x)
                               && r == if TripTaken(all[..n], x) then x.(trip := None) else x)
  {
    var t, live := ApplyUpdate(s, incoming, now), Live(s.vehicles, incoming);
    AcceptedKeys(s.vehicles, incoming);
    var current, taken := KeySet(live), TripIDsServedBy(live);
    assert t.vehicles[..|live|] == live;
    assert t.vehicles[|live|..] == Retained(s.vehicles, current, t.lastSeen, taken, now);
    forall x | x in s.vehicles
      ensures Keeps(x, current, t.lastSeen, now) <==> Disappeared(s, incoming, now, x)
      ensures ReleaseTakenTrip(x, taken) == if TripTaken(live, x) then x.(trip := None) else x
    {
      if x.id.Some? {
        KeyReported(incoming, KeyOf(x));
        SeenAfterUpdate(s, incoming, now, KeyOf(x));
      }
      assert TripTaken(live, x) ==> x.trip.value.id in taken;
    }
    if r in t.vehicles[|live|..] { RetainedFrom(s.vehicles, current, t.lastSeen, taken, now, r); }
    if x :| Disappeared(s, incoming, now, x) && r == if TripTaken(live, x) then x.(trip := None) else x {
      RetainedHas(s.vehicles, current, t.lastSeen, taken, now, x);
    }
  }

  predicate SeenWithin(v: Vehicle, lastSeen: map<VehicleKey, int>, now: int) {
    v.id.Some? && KeyOf(v) in lastSeen && now - lastSeen[KeyOf(v)] <= STALE_VEHICLE_TIMEOUT
  }

  function SeenWithinOf(lastSeen: map<VehicleKey, int>, now: int): Vehicle -> bool {
    v => SeenWithin(v, lastSeen, now)
  }

  lemma {:induction false} StillSeenIsFilter(vehicles: seq<Vehicle>, lastSeen: map<VehicleKey, int>, now: int)
    ensures StillSeen(vehicles, Unexpired(lastSeen, {}, now)) == Filter(SeenWithinOf(lastSeen, now), vehicles)
  {
    if vehicles != [] {
      var last := |vehicles| - 1;
      StillSeenIsFilter(vehicles[..last], lastSeen, now);
      assert vehicles == vehicles[..last] + [vehicles[last]];
      FilterSnoc(SeenWithinOf(lastSeen, now), vehicles[..last], vehicles[last]);
    }
  }

  /** The cleanup changes no vehicle: it keeps, in order, those seen within the last 15 minutes. */
  lemma CleanupKeepsVehicles(s: VehicleState, now: int)
    ensures Cleanup(s, now).vehicles == Filter(SeenWithinOf(s.lastSeen, now), s.vehicles)
  {
    StillSeenIsFilter(s.vehicles, s.lastSeen, now);
  }

  predicate OnAllowedRoute(routeID: string, u: Update)
    requires u.lookup.Resolved?
  {
    routeID != "" && routeID in u.lookup.routeAgency && u.lookup.routeAgency[routeID] in u.allowed
  }

  /** An entity names an allowed agency, or a route or a trip whose route belongs to one. */
  predicate NamesAllowedAgency(a: Alert, u: Update)
    requires u.lookup.Resolved?
  {
    exists e :: e in a.entities &&
      ((e.agencyID.Some? && e.agencyID.value in u.allowed)
       || (e.routeID.Some? && OnAllowedRoute(e.routeID.value, u))
       || (e.trip.Some? && OnAllowedRoute(e.trip.value.routeID, u)))
  }

  /** What the agency filter lets through, in the entities' own fields. Trips go by their trip's
      agency, and an unknown trip is set aside; vehicles and alerts go by their route's agency. */
  lemma FilterKeeps(f: Feeds, id: string, u: Update, t: Trip, v: Vehicle, a: Alert)
    requires !u.cancelled && u.allowed != {} && u.lookup.Resolved?
    ensures u.trips.Fetched? ==>
              && id in Updated(f, id, u).trips && id in Updated(f, id, u).unattributed
              && (t in Updated(f, id, u).trips[id]
                  <==> t in u.trips.data && t.id.id in u.lookup.tripAgency && u.lookup.tripAgency[t.id.id] in u.allowed)
              && (t in Updated(f, id, u).unattributed[id] <==> t in u.trips.data && t.id.id !in u.lookup.tripAgency)
    ensures u.vehicles.Fetched? ==>
              (v in KeptVehicles(u)
               <==> v in u.vehicles.data.vehicles && v.trip.Some? && OnAllowedRoute(v.trip.value.routeID, u))
    ensures u.alerts.Fetched? ==>
              && id in Updated(f, id, u).alerts
              && (a in Updated(f, id, u).alerts[id] <==> a in u.alerts.data && NamesAllowedAgency(a, u))
  {
    if u.alerts.Fetched? {
      assert AlertAllowed(a, u.allowed, u.lookup.routeAgency) <==> NamesAllowedAgency(a, u);
    }
  }

  /** Without an agency filter everything fetched is kept, in order, and nothing is set aside. */
  lemma NoFilterKeepsAll(f: Feeds, id: string, u: Update)
    requires !u.cancelled && u.allowed == {}
    ensures u.trips.Fetched? ==>
              && Updated(f, id, u).trips == f.trips[id := u.trips.data]
              && Updated(f, id, u).unattributed == f.unattributed[id := []]
    ensures u.vehicles.Fetched? ==> KeptVehicles(u) == u.vehicles.data.vehicles
    ensures u.alerts.Fetched? ==> Updated(f, id, u).alerts == f.alerts[id := u.alerts.data]
  {
  }
}
