/** Stop-direction lookups against the generation-tagged cache, racing with static reloads
    (internal/gtfs/advanced_direction_calculator.go, internal/gtfs/static.go).

    One step is one database read, one cache access or one cache replacement; lookups and the
    reload interleave freely between steps. A lookup keeps the generation it loaded. */
module DirectionCache {
  import opened Collections

  /* ---------- The database and the direction it defines ---------- */

  datatype Position = Position(lat: real, lon: real)
  datatype ShapePoint = ShapePoint(at: Position, distance: Option<real>)

  /** One trip serving a stop; shape and distance are optional columns. */
  datatype StopTrip = StopTrip(tripID: string, shapeID: Option<string>, distance: Option<real>)

  datatype StopContext = StopContext(position: Position, trips: seq<StopTrip>)

  datatype Database = Database(
    stops: map<string, StopContext>,
    stopDistances: map<string, seq<Option<real>>>,
    shapes: map<string, seq<ShapePoint>>)

  /** The trigonometry is left abstract: the bearing of a shape at a stop, and how bearings combine. */
  datatype Geometry = Geometry(
    bearing: (seq<ShapePoint>, Option<real>, Position) -> real,
    combine: seq<real> -> string)

  function ContextOf(db: Database, stop: string): StopContext {
    if stop in db.stops then db.stops[stop] else StopContext(Position(0.0, 0.0), [])
  }

  function DistancesOf(db: Database, tripID: string): seq<Option<real>> {
    if tripID in db.stopDistances then db.stopDistances[tripID] else []
  }

  function ShapeOf(db: Database, shapeID: string): seq<ShapePoint> {
    if shapeID in db.shapes then db.shapes[shapeID] else []
  }

  /** The supplied distances, in stop order. */
  function Supplied(distances: seq<Option<real>>): seq<real> {
    if distances == [] then []
    else
      var last := distances[|distances| - 1];
      Supplied(distances[..|distances| - 1]) + if last.Some? then [last.value] else []
  }

  ghost predicate LocatesStops(supplied: seq<real>) {
    |supplied| >= 2 && NonNegativeIncreasing(supplied)
  }

  ghost predicate NonNegativeIncreasing(supplied: seq<real>) {
    && (forall i :: 0 <= i < |supplied| ==> supplied[i] >= 0.0)
    && (forall i, j :: 0 <= i < j < |supplied| ==> supplied[i] < supplied[j])
  }

  /** What the scan knows after n rows: how many distances they supply, the last of them, and that
      they could still locate the stops. */
  ghost predicate Scanned(rows: seq<Option<real>>, n: nat, count: nat, previous: real)
    requires n <= |rows|
  {
    var seen := Supplied(rows[..n]);
    count == |seen| && (seen != [] ==> previous == seen[count - 1]) && NonNegativeIncreasing(seen)
  }

  lemma SuppliedNext(rows: seq<Option<real>>, n: nat)
    requires n < |rows|
    ensures Supplied(rows[..n + 1]) == Supplied(rows[..n]) + if rows[n].Some? then [rows[n].value] else []
  {
    assert rows[..n + 1][..n] == rows[..n];
  }

  lemma ScanRejects(rows: seq<Option<real>>, n: nat, count: nat, previous: real)
    requires n < |rows| && Scanned(rows, n, count, previous) && rows[n].Some?
    requires rows[n].value < 0.0 || (count > 0 && rows[n].value <= previous)
    ensures !NonNegativeIncreasing(Supplied(rows))
  {
    SuppliedNext(rows, n);
    SuppliedPrefix(rows, n + 1);
    BadPrefix(Supplied(rows[..n + 1]), Supplied(rows));
  }

  lemma ScanAccepts(rows: seq<Option<real>>, n: nat, count: nat, previous: real)
    requires n < |rows| && Scanned(rows, n, count, previous) && rows[n].Some?
    requires rows[n].value >= 0.0 && (count > 0 ==> rows[n].value > previous)
    ensures Scanned(rows, n + 1, count + 1, rows[n].value)
  {
    SuppliedNext(rows, n);
    StaysIncreasing(Supplied(rows[..n]), rows[n].value);
  }

  lemma {:induction false} SuppliedIn(rows: seq<Option<real>>, x: real)
    ensures x in Supplied(rows) <==> Some(x) in rows
  {
    if rows != [] {
      SuppliedIn(rows[..|rows| - 1], x);
      assert rows == rows[..|rows| - 1] + [rows[|rows| - 1]];
    }
  }

  lemma SuppliedAnyIn(rows: seq<Option<real>>)
    ensures Supplied(rows) != [] <==> exists i :: 0 <= i < |rows| && rows[i].Some?
  {
    if Supplied(rows) != [] {
      SuppliedIn(rows, Supplied(rows)[0]);
    }
    if i :| 0 <= i < |rows| && rows[i].Some? {
      SuppliedIn(rows, rows[i].value);
    }
  }

  lemma {:induction false} TwoSupplied(rows: seq<Option<real>>)
    ensures |Supplied(rows)| >= 2 <==> exists i, j :: 0 <= i < j < |rows| && rows[i].Some? && rows[j].Some?
  {
    if rows != [] {
      var last := |rows| - 1;
      var before := rows[..last];
      TwoSupplied(before);
      SuppliedAnyIn(before);
      assert forall i :: 0 <= i < last ==> before[i] == rows[i];
      if rows[last].Some? && Supplied(before) != [] {
        var i :| 0 <= i < last && before[i].Some?;
        assert rows[i].Some? && rows[last].Some?;
      }
    }
  }

  /** No supplied distance is negative and they strictly increase, row by row. */
  ghost predicate RowsIncrease(rows: seq<Option<real>>) {
    && (forall i :: 0 <= i < |rows| && rows[i].Some? ==> rows[i].value >= 0.0)
    && forall i, j :: 0 <= i < j < |rows| && rows[i].Some? && rows[j].Some? ==> rows[i].value < rows[j].value
  }

  lemma RowsIncreaseByOne(rows: seq<Option<real>>, row: Option<real>)
    ensures RowsIncrease(rows + [row]) <==>
              RowsIncrease(rows) && (row.Some? ==> row.value >= 0.0 && forall x :: Some(x) in rows ==> x < row.value)
  {
    var all := rows + [row];
    assert all[|rows|] == row && forall i :: 0 <= i < |rows| ==> all[i] == rows[i];
    if RowsIncrease(all) && row.Some? {
      forall x | Some(x) in rows ensures x < row.value {
        var i :| 0 <= i < |rows| && rows[i] == Some(x);
        assert all[i].value < all[|rows|].value;
      }
    }
    if RowsIncrease(rows) && row.Some? && forall x :: Some(x) in rows ==> x < row.value {
      forall i | 0 <= i < |rows| && rows[i].Some? ensures rows[i].value < row.value {
        assert Some(rows[i].value) in rows;
      }
    }
  }

  lemma {:induction false} SuppliedIncreases(rows: seq<Option<real>>)
    ensures NonNegativeIncreasing(Supplied(rows)) <==> RowsIncrease(rows)
  {
    if rows != [] {
      var last := |rows| - 1;
      var before := rows[..last];
      SuppliedIncreases(before);
      assert rows == before + [rows[last]];
      RowsIncreaseByOne(before, rows[last]);
      if rows[last].Some? {
        IncreasesWithOneMore(Supplied(before), rows[last].value);
        forall x ensures x in Supplied(before) <==> Some(x) in before { SuppliedIn(before, x); }
      } else {
        assert Supplied(rows) == Supplied(before);
      }
    }
  }

  lemma IncreasesWithOneMore(seen: seq<real>, value: real)
    ensures NonNegativeIncreasing(seen + [value])
            <==> NonNegativeIncreasing(seen) && value >= 0.0 && forall x :: x in seen ==> x < value
  {
    var all := seen + [value];
    assert all[|seen|] == value && forall i :: 0 <= i < |seen| ==> all[i] == seen[i] && seen[i] in seen;
    if NonNegativeIncreasing(all) {
      forall i | 0 <= i < |seen| ensures seen[i] < value && seen[i] >= 0.0 { assert all[i] == seen[i]; }
      forall i, j | 0 <= i < j < |seen| ensures seen[i] < seen[j] { assert all[i] < all[j]; }
    }
  }

  /** At least two distances are supplied, none is negative and they strictly increase in stop order. */
  ghost predicate CanLocateStops(rows: seq<Option<real>>) {
    (exists i, j :: 0 <= i < j < |rows| && rows[i].Some? && rows[j].Some?) && RowsIncrease(rows)
  }

  /** The scan over a trip's rows: a trip's distances are usable exactly when at least two are
      supplied, none is negative and they strictly increase. */
  method StopDistancesCanLocateStops(rows: seq<Option<real>>) returns (usable: bool)
    ensures usable <==> LocatesStops(Supplied(rows))
    ensures usable <==> CanLocateStops(rows)
  {
    TwoSupplied(rows);
    SuppliedIncreases(rows);
    var count: nat, previous := 0, 0.0;
    assert rows[..0] == [] && rows[..|rows|] == rows;
    for i := 0 to |rows|
      invariant Scanned(rows, i, count, previous)
    {
      SuppliedNext(rows, i);
      if rows[i].Some? {
        var value := rows[i].value;
        if value < 0.0 || (count > 0 && value <= previous) {
          ScanRejects(rows, i, count, previous);
          return false;
        }
        ScanAccepts(rows, i, count, previous);
        previous := value;
        count := count + 1;
      }
    }
    return count >= 2;
  }

  lemma StaysIncreasing(seen: seq<real>, value: real)
    requires NonNegativeIncreasing(seen) && value >= 0.0 && (seen != [] ==> seen[|seen| - 1] < value)
    ensures NonNegativeIncreasing(seen + [value])
  {
  }

  lemma BadPrefix(part: seq<real>, whole: seq<real>)
    requires part <= whole && part != []
    requires part[|part| - 1] < 0.0 || (|part| > 1 && part[|part| - 1] <= part[|part| - 2])
    ensures !NonNegativeIncreasing(whole)
  {
    var last := |part| - 1;
    assert whole[last] == part[last];
    if |part| > 1 { assert whole[last - 1] == part[last - 1]; }
  }

  lemma {:induction false} SuppliedPrefix(rows: seq<Option<real>>, k: nat)
    requires k <= |rows|
    ensures Supplied(rows[..k]) <= Supplied(rows)
    decreases |rows|
  {
    if k < |rows| {
      assert rows[..|rows| - 1][..k] == rows[..k];
      SuppliedPrefix(rows[..|rows| - 1], k);
    } else {
      assert rows[..k] == rows;
    }
  }

  ghost predicate Usable(db: Database, tripID: string) {
    LocatesStops(Supplied(DistancesOf(db, tripID)))
  }

  function HasDistance(row: StopTrip): bool {
    row.distance.Some? && row.distance.value >= 0.0
  }

  /** Which shape, and at which distance along it, or by geography when there is no distance. */
  datatype Key = Key(shapeID: string, distance: Option<real>)

  function KeyOf(row: StopTrip, usable: bool): Key
    requires row.shapeID.Some?
  {
    Key(row.shapeID.value, if HasDistance(row) && usable then row.distance else None)
  }

  /** None stands for a shape with fewer than two points. */
  function Bearing(geo: Geometry, db: Database, key: Key, position: Position): Option<real> {
    var points := ShapeOf(db, key.shapeID);
    if |points| < 2 then None else Some(geo.bearing(points, key.distance, position))
  }

  function Contribution(b: Option<real>): seq<real> {
    if b.Some? then [b.value] else []
  }

  ghost function RowBearing(geo: Geometry, db: Database, position: Position, row: StopTrip): seq<real> {
    if row.shapeID.None? then []
    else Contribution(Bearing(geo, db, KeyOf(row, Usable(db, row.tripID)), position))
  }

  ghost function Bearings(geo: Geometry, db: Database, position: Position, rows: seq<StopTrip>): seq<real> {
    if rows == [] then [] else RowBearing(geo, db, position, rows[0]) + Bearings(geo, db, position, rows[1..])
  }

  function Combined(geo: Geometry, found: seq<real>): string {
    if found == [] then "" else geo.combine(found)
  }

  /** The direction a single database defines for a stop, without any cache. */
  ghost function Direction(geo: Geometry, db: Database, stop: string): string {
    Combined(geo, Bearings(geo, db, ContextOf(db, stop).position, ContextOf(db, stop).trips))
  }

  /** What a trip contributes to its stop's direction: nothing without a shape of two points or more,
      else the shape's bearing, taken at the trip's own distance exactly when that is not negative and
      the trip's distances can locate stops, and by geography otherwise. */
  ghost function TripBearing(geo: Geometry, db: Database, position: Position): StopTrip -> seq<real> {
    (row: StopTrip) =>
      if row.shapeID == None || row.shapeID.value !in db.shapes || |db.shapes[row.shapeID.value]| < 2 then []
      else
        var locates := row.tripID in db.stopDistances && CanLocateStops(db.stopDistances[row.tripID]);
        var at := if row.distance != None && row.distance.value >= 0.0 && locates then row.distance else None;
        [geo.bearing(db.shapes[row.shapeID.value], at, position)]
  }

  lemma RowBearingIs(geo: Geometry, db: Database, position: Position, row: StopTrip)
    ensures RowBearing(geo, db, position, row) == TripBearing(geo, db, position)(row)
  {
    var distances := DistancesOf(db, row.tripID);
    TwoSupplied(distances);
    SuppliedIncreases(distances);
  }

  lemma {:induction false} BearingsAre(geo: Geometry, db: Database, position: Position, rows: seq<StopTrip>)
    ensures Bearings(geo, db, position, rows) == Flatten(Map(TripBearing(geo, db, position), rows))
  {
    if rows != [] {
      RowBearingIs(geo, db, position, rows[0]);
      BearingsAre(geo, db, position, rows[1..]);
      assert Map(TripBearing(geo, db, position), rows)[1..] == Map(TripBearing(geo, db, position), rows[1..]);
    }
  }

  /** A stop's direction is the combination of what its trips contribute, in order, and empty when no
      trip contributes. */
  lemma DirectionOfStop(geo: Geometry, db: Database, stop: string)
    requires stop in db.stops
    ensures var found := Flatten(Map(TripBearing(geo, db, db.stops[stop].position), db.stops[stop].trips));
      Direction(geo, db, stop) == if found == [] then "" else geo.combine(found)
  {
    BearingsAre(geo, db, db.stops[stop].position, db.stops[stop].trips);
  }

  /* ---------- Cache generations and lookups ---------- */

  datatype Generation = Generation(directions: map<string, string>, usable: map<string, bool>)

  /** A lookup's own progress: what is left to read, what was found, and its per-call bearing cache. */
  datatype Work = Work(
    position: Position, rows: seq<StopTrip>, found: seq<real>, bearings: map<Key, real>, failedRead: bool)

  datatype Lookup =
    | Idle
    | Loaded(stop: string, gen: nat)
    | Leading(stop: string, gen: nat)
    | Computing(stop: string, gen: nat, work: Work)
    | Resolved(stop: string, gen: nat, work: Work, usable: bool, unsaved: bool)
    | Waiting(stop: string, gen: nat)
    | Answered(stop: string, gen: nat, answer: Option<string>)

  datatype State = State(
    db: Database, generations: seq<Generation>, lookups: seq<Lookup>,
    awaitingClear: bool, stores: seq<(nat, string)>)

  function Current(s: State): nat
    requires s.generations != []
  {
    |s.generations| - 1
  }

  datatype Step =
    | Start(l: nat, stop: string)
    | Hit(l: nat)
    | Lead(l: nat)
    | Wait(l: nat)
    | Recheck(l: nat)
    | ReadContext(l: nat)
    | SkipRow(l: nat)
    | ReadUsable(l: nat)
    | SaveUsable(l: nat)
    | ReadShape(l: nat)
    | Finish(l: nat)
    | FailLookup(l: nat)
    | FailShape(l: nat)
    | Commit(db: Database)
    | ClearCache
    | CountsFail

  predicate InFlight(l: Lookup) {
    l.Leading? || l.Computing? || l.Resolved?
  }

  predicate HasLeader(lookups: seq<Lookup>, gen: nat, stop: string) {
    exists i :: 0 <= i < |lookups| && InFlight(lookups[i]) && lookups[i].gen == gen && lookups[i].stop == stop
  }

  predicate Enabled(s: State, step: Step) {
    s.generations != [] &&
    match step
    case Start(l, _) => l < |s.lookups| && (s.lookups[l].Idle? || s.lookups[l].Answered?)
    case Hit(l) => l < |s.lookups| && s.lookups[l].Loaded? && Cached(s, s.lookups[l].gen, s.lookups[l].stop)
    case Lead(l) => l < |s.lookups| && s.lookups[l].Loaded?
        && !HasLeader(s.lookups, s.lookups[l].gen, s.lookups[l].stop)
    case Wait(l) => l < |s.lookups| && s.lookups[l].Loaded? && HasLeader(s.lookups, s.lookups[l].gen, s.lookups[l].stop)
    case Recheck(l) => l < |s.lookups| && s.lookups[l].Leading? && Cached(s, s.lookups[l].gen, s.lookups[l].stop)
    case ReadContext(l) =>
      l < |s.lookups| && s.lookups[l].Leading? && s.lookups[l].gen < |s.generations|
      && !Cached(s, s.lookups[l].gen, s.lookups[l].stop)
    case SkipRow(l) =>
      l < |s.lookups| && s.lookups[l].Computing? && s.lookups[l].work.rows != []
          && s.lookups[l].work.rows[0].shapeID.None?
    case ReadUsable(l) =>
      l < |s.lookups| && s.lookups[l].Computing? && s.lookups[l].work.rows != []
          && s.lookups[l].work.rows[0].shapeID.Some?
      && s.lookups[l].gen < |s.generations|
    case SaveUsable(l) =>
      l < |s.lookups| && s.lookups[l].Resolved? && s.lookups[l].unsaved && s.lookups[l].work.rows != []
      && s.lookups[l].gen < |s.generations|
    case ReadShape(l) => ReadyForShape(s, l)
    case Finish(l) => l < |s.lookups| && s.lookups[l].Computing? && s.lookups[l].work.rows == []
        && s.lookups[l].gen < |s.generations|
    case FailLookup(l) => l < |s.lookups| && InFlight(s.lookups[l])
    case FailShape(l) =>
      ReadyForShape(s, l) && KeyOf(s.lookups[l].work.rows[0], s.lookups[l].usable) !in s.lookups[l].work.bearings
    case Commit(_) => !s.awaitingClear
    case ClearCache => s.awaitingClear
    case CountsFail => s.awaitingClear
  }

  predicate ReadyForShape(s: State, l: nat) {
    l < |s.lookups| && s.lookups[l].Resolved? && !s.lookups[l].unsaved
    && s.lookups[l].work.rows != [] && s.lookups[l].work.rows[0].shapeID.Some?
  }

  predicate Cached(s: State, gen: nat, stop: string) {
    gen < |s.generations| && stop in s.generations[gen].directions
  }

  /** Ends a flight: the leader and everybody waiting on it get the same answer. */
  function Settle(lookups: seq<Lookup>, l: nat, answer: Option<string>): (r: seq<Lookup>)
    requires l < |lookups| && InFlight(lookups[l])
    ensures |r| == |lookups|
  {
    var stop, gen := lookups[l].stop, lookups[l].gen;
    seq(|lookups|, i requires 0 <= i < |lookups| =>
      if i == l || lookups[i] == Waiting(stop, gen) then Answered(stop, gen, answer) else lookups[i])
  }

  /** The rest of the work once a row's bearing is known (None: no usable shape). */
  function Advance(work: Work, key: Option<Key>, bearing: Option<real>): Work
    requires work.rows != []
  {
    work.(rows := work.rows[1..], found := work.found + Contribution(bearing),
          bearings := if key.Some? && bearing.Some? then work.bearings[key.value := bearing.value] else work.bearings)
  }

  /** The bearing cache of the call comes first, the database second. */
  function BearingFor(geo: Geometry, s: State, work: Work, key: Key): Option<real> {
    if key in work.bearings then Some(work.bearings[key]) else Bearing(geo, s.db, key, work.position)
  }

  ghost function UsableFor(s: State, gen: nat, row: StopTrip): bool
    requires gen < |s.generations|
  {
    HasDistance(row) &&
    if row.tripID in s.generations[gen].usable then s.generations[gen].usable[row.tripID] else Usable(s.db, row.tripID)
  }

  ghost function Apply(geo: Geometry, s: State, step: Step): State
    requires Enabled(s, step)
  {
    match step
    case Start(l, stop) => s.(lookups := s.lookups[l := Loaded(stop, Current(s))])
    case Hit(l) =>
      var q := s.lookups[l];
      s.(lookups := s.lookups[l := Answered(q.stop, q.gen, Some(s.generations[q.gen].directions[q.stop]))])
    case Lead(l) => s.(lookups := s.lookups[l := Leading(s.lookups[l].stop, s.lookups[l].gen)])
    case Wait(l) => s.(lookups := s.lookups[l := Waiting(s.lookups[l].stop, s.lookups[l].gen)])
    case Recheck(l) =>
      var q := s.lookups[l];
      s.(lookups := Settle(s.lookups, l, Some(s.generations[q.gen].directions[q.stop])))
    case ReadContext(l) =>
      var q := s.lookups[l];
      var context := ContextOf(s.db, q.stop);
      s.(lookups := s.lookups[l := Computing(q.stop, q.gen, Work(context.position, context.trips, [], map[], false))])
    case SkipRow(l) =>
      var q := s.lookups[l];
      s.(lookups := s.lookups[l := Computing(q.stop, q.gen, Advance(q.work, None, None))])
    case ReadUsable(l) =>
      var q := s.lookups[l];
      var row := q.work.rows[0];
      s.(lookups := s.lookups[l := Resolved(q.stop, q.gen, q.work, UsableFor(s, q.gen, row),
                                            HasDistance(row) && row.tripID !in s.generations[q.gen].usable)])
    case SaveUsable(l) =>
      var q := s.lookups[l];
      var g := s.generations[q.gen];
      s.(lookups := s.lookups[l := q.(unsaved := false)],
         generations := s.generations[q.gen := g.(usable := g.usable[q.work.rows[0].tripID := q.usable])])
    case ReadShape(l) =>
      var q := s.lookups[l];
      var key := KeyOf(q.work.rows[0], q.usable);
      s.(lookups := s.lookups[l := Computing(q.stop, q.gen,
                                             Advance(q.work, Some(key), BearingFor(geo, s, q.work, key)))])
    case Finish(l) =>
      var q := s.lookups[l];
      var answer := Combined(geo, q.work.found);
      if q.work.found == [] && q.work.failedRead then s.(lookups := Settle(s.lookups, l, None))
      else
        var g := s.generations[q.gen];
        s.(lookups := Settle(s.lookups, l, Some(answer)),
           generations := s.generations[q.gen := g.(directions := g.directions[q.stop := answer])],
           stores := s.stores + [(q.gen, q.stop)])
    case FailLookup(l) => s.(lookups := Settle(s.lookups, l, None))
    case FailShape(l) =>
      var q := s.lookups[l];
      s.(lookups := s.lookups[l := Computing(q.stop, q.gen, Advance(q.work, None, None).(failedRead := true))])
    case Commit(db) => s.(db := db, awaitingClear := true)
    case ClearCache => s.(generations := s.generations + [Generation(map[], map[])], awaitingClear := false)
    case CountsFail => s.(awaitingClear := false)
  }

  function Init(db: Database, clients: nat): State {
    State(db, [Generation(map[], map[])], seq(clients, _ => Idle), false, [])
  }

  ghost predicate IsRun(geo: Geometry, db: Database, clients: nat, steps: seq<Step>)
    decreases |steps|, 0
  {
    steps == [] ||
    (IsRun(geo, db, clients, steps[..|steps| - 1])
     && Enabled(After(geo, db, clients, steps[..|steps| - 1]), steps[|steps| - 1]))
  }

  ghost function After(geo: Geometry, db: Database, clients: nat, steps: seq<Step>): State
    requires IsRun(geo, db, clients, steps)
    decreases |steps|, 1
  {
    if steps == [] then Init(db, clients)
    else Apply(geo, After(geo, db, clients, steps[..|steps| - 1]), steps[|steps| - 1])
  }

  /* ---------- Each stop is stored at most once per generation ---------- */

  ghost predicate SingleFlight(lookups: seq<Lookup>) {
    forall i, j :: 0 <= i < j < |lookups| && InFlight(lookups[i]) && InFlight(lookups[j]) ==>
      lookups[i].gen != lookups[j].gen || lookups[i].stop != lookups[j].stop
  }

  /** Past the recheck, the leader's entry is still missing. */
  predicate Missing(s: State, l: Lookup) {
    l.Computing? || l.Resolved? ==> l.gen < |s.generations| && l.stop !in s.generations[l.gen].directions
  }

  ghost predicate StoresMatch(s: State) {
    && Distinct(s.stores)
    && forall gen: nat, stop :: (gen, stop) in s.stores <==> Cached(s, gen, stop)
  }

  ghost predicate OnceInvariant(s: State) {
    && s.generations != []
    && SingleFlight(s.lookups)
    && (forall i :: 0 <= i < |s.lookups| ==> Missing(s, s.lookups[i]))
    && StoresMatch(s)
  }

  lemma MissingKept(geo: Geometry, s: State, step: Step)
    requires OnceInvariant(s) && Enabled(s, step) && !step.Finish?
    ensures var t := Apply(geo, s, step); forall i :: 0 <= i < |t.lookups| ==> Missing(t, t.lookups[i])
  {
    var t := Apply(geo, s, step);
    forall i | 0 <= i < |t.lookups| ensures Missing(t, t.lookups[i]) {
      assert Missing(s, s.lookups[i]);
    }
  }

  lemma StoresKept(geo: Geometry, s: State, step: Step)
    requires StoresMatch(s) && s.generations != [] && Enabled(s, step) && !step.Finish?
    ensures StoresMatch(Apply(geo, s, step)) && Apply(geo, s, step).generations != []
  {
  }

  /** Only becoming a leader starts a flight. */
  lemma FlightsOnlyStartWithLead(geo: Geometry, s: State, step: Step, i: nat)
    requires Enabled(s, step) && !step.Lead? && i < |Apply(geo, s, step).lookups|
            && InFlight(Apply(geo, s, step).lookups[i])
    ensures var l := Apply(geo, s, step).lookups[i];
      i < |s.lookups| && InFlight(s.lookups[i]) && l.gen == s.lookups[i].gen && l.stop == s.lookups[i].stop
  {
  }

  lemma SingleFlightKept(geo: Geometry, s: State, step: Step)
    requires SingleFlight(s.lookups) && Enabled(s, step)
    ensures SingleFlight(Apply(geo, s, step).lookups)
  {
    var t := Apply(geo, s, step);
    if !step.Lead? {
      forall i, j | 0 <= i < j < |t.lookups| && InFlight(t.lookups[i]) && InFlight(t.lookups[j])
        ensures t.lookups[i].gen != t.lookups[j].gen || t.lookups[i].stop != t.lookups[j].stop
      {
        FlightsOnlyStartWithLead(geo, s, step, i);
        FlightsOnlyStartWithLead(geo, s, step, j);
      }
    }
  }

  lemma OnceKeptByOthers(geo: Geometry, s: State, step: Step)
    requires OnceInvariant(s) && Enabled(s, step) && !step.Finish?
    ensures OnceInvariant(Apply(geo, s, step))
  {
    SingleFlightKept(geo, s, step);
    MissingKept(geo, s, step);
    StoresKept(geo, s, step);
  }

  lemma OnceKeptByFinish(geo: Geometry, s: State, step: Step)
    requires OnceInvariant(s) && Enabled(s, step) && step.Finish?
    ensures OnceInvariant(Apply(geo, s, step))
  {
    SingleFlightKept(geo, s, step);
  }

  lemma {:induction false} OnceHolds(geo: Geometry, db: Database, clients: nat, steps: seq<Step>)
    requires IsRun(geo, db, clients, steps)
    ensures OnceInvariant(After(geo, db, clients, steps))
    decreases |steps|
  {
    if steps != [] {
      var before, step := After(geo, db, clients, steps[..|steps| - 1]), steps[|steps| - 1];
      OnceHolds(geo, db, clients, steps[..|steps| - 1]);
      if step.Finish? { OnceKeptByFinish(geo, before, step); } else { OnceKeptByOthers(geo, before, step); }
    }
  }

  /** Whatever happens, failures included, no stop is stored twice in one generation. */
  lemma StoredAtMostOnce(geo: Geometry, db: Database, clients: nat, steps: seq<Step>)
    requires IsRun(geo, db, clients, steps)
    ensures Distinct(After(geo, db, clients, steps).stores)
    ensures forall gen: nat, stop :: (gen, stop) in After(geo, db, clients, steps).stores <==>
              Cached(After(geo, db, clients, steps), gen, stop)
  {
    OnceHolds(geo, db, clients, steps);
  }

  /* ---------- No waiting lookup is lost ---------- */

  /** A lookup in flight holds an existing generation, and a resolved one has a row with a shape. */
  predicate CanGoOn(s: State, l: Lookup) {
    && (InFlight(l) ==> l.gen < |s.generations|)
    && (l.Resolved? ==> l.work.rows != [] && l.work.rows[0].shapeID.Some?)
    && (l.Loaded? ==> l.gen < |s.generations|)
  }

  ghost predicate Served(s: State) {
    && s.generations != []
    && (forall i :: 0 <= i < |s.lookups| ==> CanGoOn(s, s.lookups[i]))
    && forall i :: 0 <= i < |s.lookups| && s.lookups[i].Waiting? ==>
         HasLeader(s.lookups, s.lookups[i].gen, s.lookups[i].stop)
  }

  lemma GoesOn(geo: Geometry, s: State, step: Step)
    requires Served(s) && Enabled(s, step)
    ensures var t := Apply(geo, s, step);
      t.generations != [] && forall i :: 0 <= i < |t.lookups| ==> CanGoOn(t, t.lookups[i])
  {
    var t := Apply(geo, s, step);
    forall i | 0 <= i < |t.lookups| ensures CanGoOn(t, t.lookups[i]) { assert CanGoOn(s, s.lookups[i]); }
  }

  predicate Settles(step: Step) {
    step.Recheck? || step.Finish? || step.FailLookup?
  }

  lemma LeaderOf(s: State, i: nat) returns (j: nat)
    requires Served(s) && i < |s.lookups| && s.lookups[i].Waiting?
    ensures j < |s.lookups| && InFlight(s.lookups[j])
    ensures s.lookups[j].gen == s.lookups[i].gen && s.lookups[j].stop == s.lookups[i].stop
  {
    j :| 0 <= j < |s.lookups| && InFlight(s.lookups[j]) && s.lookups[j].gen == s.lookups[i].gen
         && s.lookups[j].stop == s.lookups[i].stop;
  }

  /** A leader leaves a flight only by settling it, which answers everybody who waits for it. */
  lemma LeaderStaysWhenSettling(geo: Geometry, s: State, step: Step, i: nat)
    requires Served(s) && Enabled(s, step) && Settles(step)
    requires i < |s.lookups| && Apply(geo, s, step).lookups[i].Waiting?
    ensures var t := Apply(geo, s, step); HasLeader(t.lookups, t.lookups[i].gen, t.lookups[i].stop)
  {
    var t := Apply(geo, s, step);
    assert t.lookups[i] == s.lookups[i];
    var j := LeaderOf(s, i);
    assert j != step.l && t.lookups[j] == s.lookups[j];
  }

  lemma LeaderStays(geo: Geometry, s: State, step: Step, i: nat)
    requires Served(s) && Enabled(s, step)
    requires i < |Apply(geo, s, step).lookups| && Apply(geo, s, step).lookups[i].Waiting?
    ensures var t := Apply(geo, s, step); HasLeader(t.lookups, t.lookups[i].gen, t.lookups[i].stop)
  {
    var t := Apply(geo, s, step);
    if Settles(step) {
      LeaderStaysWhenSettling(geo, s, step, i);
    } else if step.Wait? && step.l == i {
      var j :| 0 <= j < |s.lookups| && InFlight(s.lookups[j]) && s.lookups[j].gen == s.lookups[i].gen
               && s.lookups[j].stop == s.lookups[i].stop;
      assert t.lookups[j] == s.lookups[j];
    } else {
      assert t.lookups[i] == s.lookups[i];
      var j := LeaderOf(s, i);
      assert InFlight(t.lookups[j]) && t.lookups[j].gen == s.lookups[j].gen && t.lookups[j].stop == s.lookups[j].stop;
    }
  }

  lemma {:induction false} ServedHolds(geo: Geometry, db: Database, clients: nat, steps: seq<Step>)
    requires IsRun(geo, db, clients, steps)
    ensures Served(After(geo, db, clients, steps))
    decreases |steps|
  {
    if steps != [] {
      var before, step := After(geo, db, clients, steps[..|steps| - 1]), steps[|steps| - 1];
      ServedHolds(geo, db, clients, steps[..|steps| - 1]);
      GoesOn(geo, before, step);
      var t := Apply(geo, before, step);
      forall i | 0 <= i < |t.lookups| && t.lookups[i].Waiting?
        ensures HasLeader(t.lookups, t.lookups[i].gen, t.lookups[i].stop)
      {
        LeaderStays(geo, before, step, i);
      }
    }
  }

  /** A step of lookup l itself that is no failure. */
  predicate MovesOn(s: State, step: Step, l: nat) {
    !step.Commit? && !step.ClearCache? && !step.CountsFail? && !step.FailLookup? && !step.FailShape?
    && step.l == l && Enabled(s, step)
  }

  /** Whatever fails or reloads, a lookup that joined a flight still has its leader, and the leader can
      take a step of its own that is no failure, until the flight is settled. */
  lemma NoWaiterIsLost(geo: Geometry, db: Database, clients: nat, steps: seq<Step>, i: nat)
    requires IsRun(geo, db, clients, steps) && i < |After(geo, db, clients, steps).lookups|
    requires After(geo, db, clients, steps).lookups[i].Waiting?
    ensures var s := After(geo, db, clients, steps);
      exists j: nat, step :: j < |s.lookups| && InFlight(s.lookups[j]) && s.lookups[j].gen == s.lookups[i].gen
                             && s.lookups[j].stop == s.lookups[i].stop && MovesOn(s, step, j)
  {
    var s := After(geo, db, clients, steps);
    ServedHolds(geo, db, clients, steps);
    var j :| 0 <= j < |s.lookups| && InFlight(s.lookups[j]) && s.lookups[j].gen == s.lookups[i].gen
             && s.lookups[j].stop == s.lookups[i].stop;
    LeaderCanMove(s, j);
  }

  lemma LeaderCanMove(s: State, j: nat)
    requires Served(s) && j < |s.lookups| && InFlight(s.lookups[j])
    ensures exists step :: MovesOn(s, step, j)
  {
    var l := s.lookups[j];
    assert CanGoOn(s, l);
    if l.Leading? {
      assert MovesOn(s, Recheck(j), j) || MovesOn(s, ReadContext(j), j);
    } else if l.Resolved? {
      assert MovesOn(s, SaveUsable(j), j) || MovesOn(s, ReadShape(j), j);
    } else if l.work.rows == [] {
      assert MovesOn(s, Finish(j), j);
    } else {
      assert MovesOn(s, SkipRow(j), j) || MovesOn(s, ReadUsable(j), j);
    }
  }

  /** What a computing lookup still has to do. */
  function StepsLeft(l: Lookup): nat {
    match l
    case Computing(_, _, work) => 3 * |work.rows|
    case Resolved(_, _, work, _, unsaved) =>
      if work.rows == [] then 0 else 3 * |work.rows| - 2 + if unsaved then 1 else 0
    case _ => 0
  }

  /** A flight that has read its context ends: each own step leaves it less to do, until it settles and
      everybody who waits for it is answered. */
  lemma FlightEnds(geo: Geometry, s: State, step: Step, l: nat)
    requires Served(s) && MovesOn(s, step, l) && (s.lookups[l].Computing? || s.lookups[l].Resolved?)
    ensures var q, t := s.lookups[l], Apply(geo, s, step);
      if step.Finish? then
        t.lookups[l].Answered?
        && forall i :: 0 <= i < |s.lookups| && s.lookups[i] == Waiting(q.stop, q.gen) ==> t.lookups[i].Answered?
      else (t.lookups[l].Computing? || t.lookups[l].Resolved?) && StepsLeft(t.lookups[l]) < StepsLeft(q)
  {
    assert CanGoOn(s, s.lookups[l]);
  }

  /* ---------- The current generation agrees with the committed database ---------- */

  /** Every cached value of a generation is the one the given database defines. */
  ghost predicate GenerationAgrees(geo: Geometry, db: Database, g: Generation) {
    && (forall stop :: stop in g.directions ==> g.directions[stop] == Direction(geo, db, stop))
    && (forall trip :: trip in g.usable ==> g.usable[trip] == Usable(db, trip))
  }

  /** Unless a shape read failed, what a lookup has found so far, plus what the database still has to
      offer, is the whole answer. */
  ghost predicate WorkAgrees(geo: Geometry, db: Database, stop: string, work: Work) {
    && work.position == ContextOf(db, stop).position
    && (!work.failedRead ==> work.found + Bearings(geo, db, work.position, work.rows)
                               == Bearings(geo, db, work.position, ContextOf(db, stop).trips))
    && forall key :: key in work.bearings ==> Bearing(geo, db, key, work.position) == Some(work.bearings[key])
  }

  ghost predicate LookupAgrees(geo: Geometry, db: Database, l: Lookup) {
    match l
    case Computing(stop, _, work) => WorkAgrees(geo, db, stop, work)
    case Resolved(stop, _, work, usable, unsaved) =>
      WorkAgrees(geo, db, stop, work) && work.rows != [] && work.rows[0].shapeID.Some?
      && usable == (HasDistance(work.rows[0]) && Usable(db, work.rows[0].tripID))
      && (unsaved ==> HasDistance(work.rows[0]))
    case Answered(stop, _, Some(answer)) => answer == Direction(geo, db, stop)
    case _ => true
  }

  predicate GenOf(l: Lookup, gen: nat) {
    !l.Idle? && l.gen == gen
  }

  ghost predicate GenerationsExist(s: State) {
    s.generations != []
    && forall i :: 0 <= i < |s.lookups| && !s.lookups[i].Idle? ==> s.lookups[i].gen < |s.generations|
  }

  /** The main invariant: outside the gap between commit and ClearCache, the current generation and
      every lookup holding it speak about the committed database alone. */
  ghost predicate Agrees(geo: Geometry, s: State) {
    && GenerationsExist(s)
    && (!s.awaitingClear ==>
          && GenerationAgrees(geo, s.db, s.generations[Current(s)])
          && forall i :: 0 <= i < |s.lookups| && GenOf(s.lookups[i], Current(s)) ==>
               LookupAgrees(geo, s.db, s.lookups[i]))
  }

  /** Since the last ClearCache a reload has returned early because its table count failed. */
  predicate CountFailed(steps: seq<Step>) {
    steps != [] && !steps[|steps| - 1].ClearCache?
        && (steps[|steps| - 1].CountsFail? || CountFailed(steps[..|steps| - 1]))
  }

  /** The step stores, in the current generation, an answer found although a shape read failed. */
  predicate StoresPartial(s: State, step: Step) {
    step.Finish? && Enabled(s, step)
    && var q := s.lookups[step.l]; q.gen == Current(s) && q.work.failedRead && q.work.found != []
  }

  /** Such a step has happened since the last ClearCache. */
  ghost predicate PartialStored(geo: Geometry, db: Database, clients: nat, steps: seq<Step>)
    requires IsRun(geo, db, clients, steps)
    decreases |steps|
  {
    steps != [] && !steps[|steps| - 1].ClearCache?
    && (StoresPartial(After(geo, db, clients, steps[..|steps| - 1]), steps[|steps| - 1])
        || PartialStored(geo, db, clients, steps[..|steps| - 1]))
  }

  lemma RowDone(geo: Geometry, db: Database, stop: string, work: Work, key: Option<Key>, bearing: Option<real>)
    requires WorkAgrees(geo, db, stop, work) && work.rows != []
    requires Contribution(bearing) == RowBearing(geo, db, work.position, work.rows[0])
    requires key.Some? && bearing.Some? ==> Bearing(geo, db, key.value, work.position) == bearing
    ensures WorkAgrees(geo, db, stop, Advance(work, key, bearing))
  {
    var after := Advance(work, key, bearing);
    var rest := Bearings(geo, db, work.position, work.rows[1..]);
    assert Bearings(geo, db, work.position, work.rows) == Contribution(bearing) + rest;
    assert after.found + rest == work.found + (Contribution(bearing) + rest);
  }

  lemma ShapeRead(geo: Geometry, s: State, q: Lookup)
    requires q.Resolved? && LookupAgrees(geo, s.db, q)
    ensures var key := KeyOf(q.work.rows[0], q.usable);
            WorkAgrees(geo, s.db, q.stop, Advance(q.work, Some(key), BearingFor(geo, s, q.work, key)))
  {
    var key := KeyOf(q.work.rows[0], q.usable);
    var bearing := BearingFor(geo, s, q.work, key);
    assert key == KeyOf(q.work.rows[0], Usable(s.db, q.work.rows[0].tripID));
    assert bearing == Bearing(geo, s.db, key, q.work.position);
    RowDone(geo, s.db, q.stop, q.work, Some(key), bearing);
  }

  lemma FinishedAnswer(geo: Geometry, db: Database, stop: string, work: Work)
    requires WorkAgrees(geo, db, stop, work) && work.rows == [] && !work.failedRead
    ensures Combined(geo, work.found) == Direction(geo, db, stop)
  {
    assert work.found + [] == work.found;
  }

  /** The steps that touch one lookup only. */
  predicate IsOwnStep(step: Step) {
    step.Start? || step.Hit? || step.Lead? || step.Wait? || step.ReadContext? || step.SkipRow?
    || step.ReadUsable? || step.SaveUsable? || step.ReadShape? || step.FailShape?
  }

  lemma FreshWork(geo: Geometry, db: Database, stop: string)
    ensures WorkAgrees(geo, db, stop, Work(ContextOf(db, stop).position, ContextOf(db, stop).trips, [], map[], false))
  {
    var b := Bearings(geo, db, ContextOf(db, stop).position, ContextOf(db, stop).trips);
    assert [] + b == b;
  }

  lemma UsableRead(geo: Geometry, s: State, gen: nat, row: StopTrip)
    requires gen < |s.generations| && GenerationAgrees(geo, s.db, s.generations[gen])
    ensures UsableFor(s, gen, row) == (HasDistance(row) && Usable(s.db, row.tripID))
  {
  }

  lemma ShapeFailed(geo: Geometry, db: Database, stop: string, work: Work)
    requires WorkAgrees(geo, db, stop, work) && work.rows != []
    ensures WorkAgrees(geo, db, stop, Advance(work, None, None).(failedRead := true))
  {
  }

  /** A lookup's own step keeps it in agreement with the database. */
  lemma StepAgrees(geo: Geometry, s: State, step: Step)
    requires Agrees(geo, s) && Enabled(s, step) && !s.awaitingClear
    requires IsOwnStep(step)
    ensures GenOf(Apply(geo, s, step).lookups[step.l], Current(s)) ==>
              LookupAgrees(geo, s.db, Apply(geo, s, step).lookups[step.l])
  {
    var q := s.lookups[step.l];
    if GenOf(q, Current(s)) {
      assert LookupAgrees(geo, s.db, q);
      if step.ReadContext? {
        FreshWork(geo, s.db, q.stop);
      } else if step.SkipRow? {
        RowDone(geo, s.db, q.stop, q.work, None, None);
      } else if step.ReadUsable? {
        UsableRead(geo, s, q.gen, q.work.rows[0]);
      } else if step.ReadShape? {
        ShapeRead(geo, s, q);
      } else if step.FailShape? {
        ShapeFailed(geo, s.db, q.stop, q.work);
      }
    }
  }

  lemma AgreesAfterLookupStep(geo: Geometry, s: State, step: Step)
    requires Agrees(geo, s) && Enabled(s, step)
    requires IsOwnStep(step)
    ensures Agrees(geo, Apply(geo, s, step))
  {
    var t := Apply(geo, s, step);
    assert Current(t) == Current(s) && t.db == s.db;
    if !s.awaitingClear {
      StepAgrees(geo, s, step);
      if step.SaveUsable? && GenOf(s.lookups[step.l], Current(s)) {
        assert LookupAgrees(geo, s.db, s.lookups[step.l]);
      }
      assert GenerationAgrees(geo, t.db, t.generations[Current(t)]);
      forall i | 0 <= i < |t.lookups| && GenOf(t.lookups[i], Current(t)) ensures LookupAgrees(geo, t.db, t.lookups[i]) {
        if i != step.l { assert t.lookups[i] == s.lookups[i]; }
      }
    }
  }

  lemma AgreesAfterSettle(geo: Geometry, s: State, step: Step)
    requires Agrees(geo, s) && Enabled(s, step) && !StoresPartial(s, step)
    requires Settles(step)
    ensures Agrees(geo, Apply(geo, s, step))
  {
    var t, q := Apply(geo, s, step), s.lookups[step.l];
    assert Current(t) == Current(s) && t.db == s.db;
    if !s.awaitingClear {
      if GenOf(q, Current(s)) {
        assert LookupAgrees(geo, s.db, q);
        if step.Finish? && !q.work.failedRead { FinishedAnswer(geo, s.db, q.stop, q.work); }
      }
      assert GenerationAgrees(geo, t.db, t.generations[Current(t)]);
      forall i | 0 <= i < |t.lookups| && GenOf(t.lookups[i], Current(t)) ensures LookupAgrees(geo, t.db, t.lookups[i]) {
        if t.lookups[i] == s.lookups[i] { assert GenOf(s.lookups[i], Current(s)); }
      }
    }
  }

  /** A new generation starts out right, whatever went wrong before it. */
  lemma AgreesAfterReload(geo: Geometry, s: State, step: Step)
    requires GenerationsExist(s) && Enabled(s, step)
    requires step.Commit? || step.ClearCache?
    ensures Agrees(geo, Apply(geo, s, step))
  {
  }

  lemma GenerationsKept(geo: Geometry, s: State, step: Step)
    requires GenerationsExist(s) && Enabled(s, step)
    ensures GenerationsExist(Apply(geo, s, step))
  {
  }

  lemma {:induction false} AgreesHolds(geo: Geometry, db: Database, clients: nat, steps: seq<Step>)
    requires IsRun(geo, db, clients, steps)
    ensures GenerationsExist(After(geo, db, clients, steps))
    ensures !CountFailed(steps) && !PartialStored(geo, db, clients, steps) ==>
            Agrees(geo, After(geo, db, clients, steps))
    decreases |steps|
  {
    if steps != [] {
      var before, step := After(geo, db, clients, steps[..|steps| - 1]), steps[|steps| - 1];
      AgreesHolds(geo, db, clients, steps[..|steps| - 1]);
      GenerationsKept(geo, before, step);
      if step.Commit? || step.ClearCache? {
        AgreesAfterReload(geo, before, step);
      } else if !CountFailed(steps) && !PartialStored(geo, db, clients, steps) {
        if IsOwnStep(step) { AgreesAfterLookupStep(geo, before, step); } else { AgreesAfterSettle(geo, before, step); }
      }
    }
  }

  /** Unless a reload sits between its commit and ClearCache, each entry of the current generation,
      and each answer given to a lookup that loaded it, is the direction computed wholly from the
      committed database; so are the trip validations. */
  ghost predicate Coherent(geo: Geometry, s: State) {
    s.generations != [] && (!s.awaitingClear ==>
      && (forall stop :: stop in s.generations[Current(s)].directions ==>
            s.generations[Current(s)].directions[stop] == Direction(geo, s.db, stop))
      && (forall trip :: trip in s.generations[Current(s)].usable ==>
            s.generations[Current(s)].usable[trip] == Usable(s.db, trip))
      && (forall l | 0 <= l < |s.lookups| && s.lookups[l].Answered? && s.lookups[l].gen == Current(s) ::
            s.lookups[l].answer.Some? ==> s.lookups[l].answer.value == Direction(geo, s.db, s.lookups[l].stop)))
  }

  /** Over every interleaving, failed reads included, the cache is coherent as long as, since the
      last ClearCache, no table count has failed and no partial answer has been stored. */
  lemma CurrentCacheIsCoherent(geo: Geometry, db: Database, clients: nat, steps: seq<Step>)
    requires IsRun(geo, db, clients, steps)
    requires !CountFailed(steps) && !PartialStored(geo, db, clients, steps)
    ensures Coherent(geo, After(geo, db, clients, steps))
  {
    AgreesHolds(geo, db, clients, steps);
    var s := After(geo, db, clients, steps);
    forall l | !s.awaitingClear && 0 <= l < |s.lookups| && s.lookups[l].Answered? && s.lookups[l].gen == Current(s)
      && s.lookups[l].answer.Some?
      ensures s.lookups[l].answer.value == Direction(geo, s.db, s.lookups[l].stop)
    {
      assert GenOf(s.lookups[l], Current(s));
      assert LookupAgrees(geo, s.db, s.lookups[l]);
    }
  }

  /** The runs in which, since the last ClearCache, only the admitted failures have happened. */
  ghost predicate Admitted(geo: Geometry, db: Database, clients: nat, steps: seq<Step>, countsMayFail: bool,
                           partialMayBeStored: bool)
  {
    && IsRun(geo, db, clients, steps)
    && (CountFailed(steps) ==> countsMayFail)
    && (PartialStored(geo, db, clients, steps) ==> partialMayBeStored)
  }

  /** Neither failure can be admitted: all runs are coherent exactly when both are ruled out. */
  lemma CoherenceCondition(countsMayFail: bool, partialMayBeStored: bool)
    ensures !countsMayFail && !partialMayBeStored <==>
              forall geo, db, clients: nat, steps ::
                Admitted(geo, db, clients, steps, countsMayFail, partialMayBeStored) ==>
                  Coherent(geo, After(geo, db, clients, steps))
  {
    if countsMayFail {
      StaleAfterFailedCount();
    } else if partialMayBeStored {
      PartialAnswerIsCached();
    } else {
      forall geo, db, clients: nat, steps | Admitted(geo, db, clients, steps, false, false)
        ensures Coherent(geo, After(geo, db, clients, steps))
      {
        CurrentCacheIsCoherent(geo, db, clients, steps);
      }
    }
  }

  /* ---------- Where the code falls short ---------- */

  lemma Extend(geo: Geometry, db: Database, clients: nat, steps: seq<Step>, step: Step, s: State, t: State)
    requires IsRun(geo, db, clients, steps) && After(geo, db, clients, steps) == s
    requires Enabled(s, step) && Apply(geo, s, step) == t
    ensures IsRun(geo, db, clients, steps + [step]) && After(geo, db, clients, steps + [step]) == t
    ensures CountFailed(steps + [step]) <==> !step.ClearCache? && (step.CountsFail? || CountFailed(steps))
    ensures PartialStored(geo, db, clients, steps + [step]) <==>
              !step.ClearCache? && (StoresPartial(s, step) || PartialStored(geo, db, clients, steps))
  {
    assert (steps + [step])[..|steps|] == steps;
  }

  /** A run to a state, with nothing damaged on the way. */
  ghost predicate Reaches(geo: Geometry, db: Database, steps: seq<Step>, s: State) {
    IsRun(geo, db, 1, steps) && After(geo, db, 1, steps) == s
    && !CountFailed(steps) && !PartialStored(geo, db, 1, steps)
  }

  lemma ThenReaches(geo: Geometry, db: Database, steps: seq<Step>, step: Step, s: State, t: State)
    requires Reaches(geo, db, steps, s) && Enabled(s, step) && Apply(geo, s, step) == t
    requires !step.CountsFail? && !StoresPartial(s, step)
    ensures Reaches(geo, db, steps + [step], t)
  {
    Extend(geo, db, 1, steps, step, s, t);
  }

  /** A feed with one stop served by the given trips; shape "a" climbs steeply, shape "b" runs east. */
  function SmallFeed(trips: seq<StopTrip>): Database {
    Database(map["stop" := StopContext(Position(0.0, 0.0), trips)], map[],
             map["a" := Line(2.0, 1.0), "b" := Line(0.0, 1.0)])
  }

  function Line(lat: real, lon: real): seq<ShapePoint> {
    [ShapePoint(Position(0.0, 0.0), None), ShapePoint(Position(lat, lon), None)]
  }

  /** The bearing of those lines in degrees, and the compass point of the median of one or two. */
  function LineGeometry(): Geometry {
    Geometry((points: seq<ShapePoint>, distance, at) => if |points| > 1 && points[1].at.lat > 0.0 then 63.4 else 0.0,
             (found: seq<real>) => if Median(found) < 22.5 then "E" else "NE")
  }

  function Median(found: seq<real>): real {
    if found == [] then 0.0 else if |found| == 1 then found[0] else (found[0] + found[1]) / 2.0
  }

  const TRIP_A := StopTrip("ta", Some("a"), None)
  const TRIP_B := StopTrip("tb", Some("b"), None)

  lemma SmallFeedDirections()
    ensures Direction(LineGeometry(), SmallFeed([]), "stop") == ""
    ensures Direction(LineGeometry(), SmallFeed([TRIP_B]), "stop") == "E"
    ensures Direction(LineGeometry(), SmallFeed([TRIP_A, TRIP_B]), "stop") == "NE"
  {
    var geo, at := LineGeometry(), Position(0.0, 0.0);
    var one, two := SmallFeed([TRIP_B]), SmallFeed([TRIP_A, TRIP_B]);
    assert RowBearing(geo, one, at, TRIP_B) == [0.0];
    assert Bearings(geo, one, at, [TRIP_B]) == [0.0] + Bearings(geo, one, at, []) == [0.0];
    assert RowBearing(geo, two, at, TRIP_A) == [63.4] && RowBearing(geo, two, at, TRIP_B) == [0.0];
    assert [TRIP_A, TRIP_B][1..] == [TRIP_B];
    assert Bearings(geo, two, at, [TRIP_B]) == [0.0] + Bearings(geo, two, at, []) == [0.0];
    assert Bearings(geo, two, at, [TRIP_A, TRIP_B]) == [63.4] + Bearings(geo, two, at, [TRIP_B]) == [63.4, 0.0];
  }

  /** When the table count after the commit fails, the reload reports an error and never clears:
      the current generation then answers from the previous feed. */
  lemma StaleAfterFailedCount()
    ensures exists geo, db, clients: nat, steps ::
      Admitted(geo, db, clients, steps, true, false) && !Coherent(geo, After(geo, db, clients, steps))
  {
    var geo, db, next := LineGeometry(), SmallFeed([]), SmallFeed([TRIP_B]);
    var steps, s := CachedEmpty(geo, db);
    var whole := CountFails(geo, db, next, steps, s);
    SmallFeedDirections();
    assert s.generations[0].directions["stop"] == "";
    assert !Coherent(geo, After(geo, db, 1, whole));
  }

  lemma CountFails(geo: Geometry, db: Database, next: Database, begun: seq<Step>, s: State) returns (steps: seq<Step>)
    requires Reaches(geo, db, begun, s) && s.generations != [] && !s.awaitingClear
    ensures Admitted(geo, db, 1, steps, true, false) && After(geo, db, 1, steps) == s.(db := next)
  {
    var waiting := s.(db := next, awaitingClear := true);
    ThenReaches(geo, db, begun, Commit(next), s, waiting);
    Extend(geo, db, 1, begun + [Commit(next)], CountsFail, waiting, s.(db := next));
    steps := begun + [Commit(next)] + [CountsFail];
  }

  /** A lookup's own work, after the rows before `rows`. */
  function PendingWork(rows: seq<StopTrip>, failedRead: bool): Work {
    Work(Position(0.0, 0.0), rows, [], map[], failedRead)
  }

  function Alone(db: Database, l: Lookup): State {
    State(db, [Generation(map[], map[])], [l], false, [])
  }

  lemma LookupBegins(geo: Geometry, trips: seq<StopTrip>) returns (steps: seq<Step>)
    ensures Reaches(geo, SmallFeed(trips), steps,
                    Alone(SmallFeed(trips), Computing("stop", 0, PendingWork(trips, false))))
  {
    var db := SmallFeed(trips);
    assert Init(db, 1) == Alone(db, Idle);
    ThenReaches(geo, db, [], Start(0, "stop"), Alone(db, Idle), Alone(db, Loaded("stop", 0)));
    steps := [] + [Start(0, "stop")];
    ThenReaches(geo, db, steps, Lead(0), Alone(db, Loaded("stop", 0)), Alone(db, Leading("stop", 0)));
    steps := steps + [Lead(0)];
    ThenReaches(geo, db, steps, ReadContext(0), Alone(db, Leading("stop", 0)),
                Alone(db, Computing("stop", 0, PendingWork(trips, false))));
    steps := steps + [ReadContext(0)];
  }

  lemma CachedEmpty(geo: Geometry, db: Database) returns (steps: seq<Step>, s: State)
    requires db == SmallFeed([])
    ensures Reaches(geo, db, steps, s)
    ensures s.db == db && !s.awaitingClear && s.generations == [Generation(map["stop" := ""], map[])]
  {
    var begun := LookupBegins(geo, []);
    var last := Alone(db, Computing("stop", 0, PendingWork([], false)));
    s := Apply(geo, last, Finish(0));
    ThenReaches(geo, db, begun, Finish(0), last, s);
    steps := begun + [Finish(0)];
  }

  /** A shape read that fails while another trip of the stop yields a bearing is swallowed: the
      partial answer is cached and stays. */
  lemma PartialAnswerIsCached()
    ensures exists geo, db, clients: nat, steps ::
      Admitted(geo, db, clients, steps, false, true) && !Coherent(geo, After(geo, db, clients, steps))
  {
    var geo, db := LineGeometry(), SmallFeed([TRIP_A, TRIP_B]);
    var steps := FirstShapeFails(geo, db);
    steps := SecondShapeSucceeds(geo, db, steps);
    steps := PartialAnswerStored(geo, db, steps);
    SmallFeedDirections();
    assert Admitted(geo, db, 1, steps, false, true)
        && After(geo, db, 1, steps).generations[0].directions["stop"] == "E";
  }

  lemma FirstShapeFails(geo: Geometry, db: Database) returns (steps: seq<Step>)
    requires geo == LineGeometry() && db == SmallFeed([TRIP_A, TRIP_B])
    ensures Reaches(geo, db, steps, Alone(db, Computing("stop", 0, PendingWork([TRIP_B], true))))
  {
    var both := PendingWork([TRIP_A, TRIP_B], false);
    var resolved := Resolved("stop", 0, both, false, false);
    steps := LookupBegins(geo, [TRIP_A, TRIP_B]);
    ThenReaches(geo, db, steps, ReadUsable(0), Alone(db, Computing("stop", 0, both)), Alone(db, resolved));
    steps := steps + [ReadUsable(0)];
    assert both.rows[1..] == [TRIP_B];
    assert Advance(both, None, None) == PendingWork([TRIP_B], false);
    ThenReaches(geo, db, steps, FailShape(0), Alone(db, resolved),
                Alone(db, Computing("stop", 0, PendingWork([TRIP_B], true))));
    steps := steps + [FailShape(0)];
  }

  function WorkDone(): Work {
    Work(Position(0.0, 0.0), [], [0.0], map[Key("b", None) := 0.0], true)
  }

  lemma SecondShapeSucceeds(geo: Geometry, db: Database, begun: seq<Step>) returns (steps: seq<Step>)
    requires geo == LineGeometry() && db == SmallFeed([TRIP_A, TRIP_B])
    requires Reaches(geo, db, begun, Alone(db, Computing("stop", 0, PendingWork([TRIP_B], true))))
    ensures Reaches(geo, db, steps, Alone(db, Computing("stop", 0, WorkDone())))
  {
    var waiting, resolved := PendingWork([TRIP_B], true),
        Resolved("stop", 0, PendingWork([TRIP_B], true), false, false);
    ThenReaches(geo, db, begun, ReadUsable(0), Alone(db, Computing("stop", 0, waiting)), Alone(db, resolved));
    assert waiting.rows[1..] == [];
    assert Advance(waiting, Some(Key("b", None)), Some(0.0)) == WorkDone();
    assert BearingFor(geo, Alone(db, resolved), waiting, Key("b", None)) == Some(0.0);
    steps := begun + [ReadUsable(0)];
    ThenReaches(geo, db, steps, ReadShape(0), Alone(db, resolved), Alone(db, Computing("stop", 0, WorkDone())));
    steps := steps + [ReadShape(0)];
  }

  lemma PartialAnswerStored(geo: Geometry, db: Database, begun: seq<Step>) returns (steps: seq<Step>)
    requires geo == LineGeometry() && Reaches(geo, db, begun, Alone(db, Computing("stop", 0, WorkDone())))
    ensures IsRun(geo, db, 1, steps) && !CountFailed(steps)
    ensures After(geo, db, 1, steps).generations == [Generation(map["stop" := "E"], map[])]
    ensures After(geo, db, 1, steps).db == db && !After(geo, db, 1, steps).awaitingClear
  {
    var last := Alone(db, Computing("stop", 0, WorkDone()));
    Extend(geo, db, 1, begun, Finish(0), last, Apply(geo, last, Finish(0)));
    steps := begun + [Finish(0)];
  }
}
