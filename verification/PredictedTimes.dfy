/** Predicted arrival and departure of one visit from a trip's realtime update
    (internal/restapi/arrival_and_departure_for_stop_handler.go, internal/restapi/trip_updates_helper.go). */
module PredictedTimes {
  import opened Collections

  /** A predicted event: an absolute time, or a delay against the schedule. */
  datatype StopTimeEvent = StopTimeEvent(time: Option<int>, delay: Option<int>)

  datatype StopTimeUpdate = StopTimeUpdate(
    sequence: Option<nat>, stopID: Option<string>, arrival: Option<StopTimeEvent>, departure: Option<StopTimeEvent>)

  datatype TripUpdate = TripUpdate(updates: seq<StopTimeUpdate>, delay: Option<int>)

  /** The visit asked for, and the trip's static schedule; an empty schedule is one that could not be read. */
  datatype Visit = Visit(stopID: string, sequence: int, arrival: int, departure: int, schedule: map<int, string>)

  datatype Prediction = Prediction(arrival: int, departure: int)

  /* ---------- Which update names the visit ---------- */

  /** An update without a sequence reads as -1. */
  function SequenceOf(u: StopTimeUpdate): int {
    if u.sequence.Some? then u.sequence.value else -1
  }

  predicate MatchesStop(v: Visit, u: StopTimeUpdate) {
    u.stopID == Some(v.stopID)
  }

  /** The update's sequence is the visit's, and its stop, if given, is the visit's too. */
  predicate MatchesVisit(v: Visit, u: StopTimeUpdate) {
    SequenceOf(u) == v.sequence && (u.stopID.None? || MatchesStop(v, u))
  }

  /** The sequence can be trusted to name a visit: it agrees with the schedule, or nothing contradicts it. */
  predicate SequenceIdentifiesVisit(u: StopTimeUpdate, schedule: map<int, string>) {
    if u.sequence.None? then false
    else if u.stopID.None? || schedule == map[] then true
    else u.sequence.value in schedule && schedule[u.sequence.value] == u.stopID.value
  }

  /** Names the stop, but no visit of it. */
  predicate MatchesStopOnly(v: Visit, u: StopTimeUpdate) {
    !MatchesVisit(v, u) && MatchesStop(v, u) && !SequenceIdentifiesVisit(u, v.schedule)
  }

  predicate IsEarlier(v: Visit, u: StopTimeUpdate) {
    SequenceOf(u) != -1 && SequenceOf(u) < v.sequence
  }

  /* ---------- The declarative choice, by position ---------- */

  /** No update before i, and i itself does. */
  ghost predicate IsFirst(p: StopTimeUpdate -> bool, updates: seq<StopTimeUpdate>, i: nat) {
    i < |updates| && p(updates[i]) && forall j :: 0 <= j < i ==> !p(updates[j])
  }

  ghost predicate HasNone(p: StopTimeUpdate -> bool, updates: seq<StopTimeUpdate>) {
    forall j :: 0 <= j < |updates| ==> !p(updates[j])
  }

  function Visits(v: Visit): StopTimeUpdate -> bool { u => MatchesVisit(v, u) }

  function StopsOnly(v: Visit): StopTimeUpdate -> bool { u => MatchesStopOnly(v, u) }

  function Earlier(v: Visit): StopTimeUpdate -> bool { u => IsEarlier(v, u) }

  /** Update i is the one used for the visit: the first naming it, else the first naming just its stop. */
  ghost predicate IsTarget(v: Visit, updates: seq<StopTimeUpdate>, i: nat) {
    IsFirst(Visits(v), updates, i) || (HasNone(Visits(v), updates) && IsFirst(StopsOnly(v), updates, i))
  }

  ghost predicate HasTarget(v: Visit, updates: seq<StopTimeUpdate>) {
    exists i :: 0 <= i < |updates| && (MatchesVisit(v, updates[i]) || MatchesStopOnly(v, updates[i]))
  }

  /** Update i has the greatest sequence before the visit's, the first such if it repeats. */
  ghost predicate IsPrior(v: Visit, updates: seq<StopTimeUpdate>, i: nat) {
    i < |updates| && IsEarlier(v, updates[i])
    && forall j :: 0 <= j < |updates| && IsEarlier(v, updates[j]) ==>
         SequenceOf(updates[j]) < SequenceOf(updates[i]) || (SequenceOf(updates[j]) == SequenceOf(updates[i]) && i <= j)
  }

  /** The delay an update passes on: its departure's, else its arrival's, else none. */
  function PropagatedDelay(u: StopTimeUpdate): int {
    if u.departure.Some? && u.departure.value.delay.Some? then u.departure.value.delay.value
    else if u.arrival.Some? && u.arrival.value.delay.Some? then u.arrival.value.delay.value
    else 0
  }

  /** What an event says about its scheduled time; an absolute time wins over a delay. */
  function OffsetOf(e: Option<StopTimeEvent>, scheduled: int): Option<int> {
    if e.None? then None
    else if e.value.time.Some? then Some(e.value.time.value - scheduled)
    else e.value.delay
  }

  /* ---------- The scan ---------- */

  /** What the scan has chosen so far, as positions. */
  datatype Choice = Choice(target: Option<nat>, fallback: Option<nat>, prior: Option<nat>)

  ghost predicate Chosen(v: Visit, updates: seq<StopTimeUpdate>, c: Choice) {
    && (match c.target case Some(i) => IsFirst(Visits(v), updates, i) case None => HasNone(Visits(v), updates))
    && (match c.fallback case Some(i) => IsFirst(StopsOnly(v), updates, i) case None => HasNone(StopsOnly(v), updates))
    && (match c.prior case Some(i) => IsPrior(v, updates, i) case None => HasNone(Earlier(v), updates))
  }

  lemma FirstStays(p: StopTimeUpdate -> bool, updates: seq<StopTimeUpdate>, n: nat, found: Option<nat>)
    requires n < |updates|
    requires match found case Some(i) => IsFirst(p, updates[..n], i) case None => HasNone(p, updates[..n])
    ensures var next := if found.None? && p(updates[n]) then Some(n) else found;
      match next case Some(i) => IsFirst(p, updates[..n + 1], i) case None => HasNone(p, updates[..n + 1])
  {
    assert updates[..n + 1] == updates[..n] + [updates[n]];
  }

  lemma PriorStays(v: Visit, updates: seq<StopTimeUpdate>, n: nat, found: Option<nat>)
    requires n < |updates|
    requires match found case Some(i) => IsPrior(v, updates[..n], i) case None => HasNone(Earlier(v), updates[..n])
    ensures var closer := IsEarlier(v, updates[n])
                          && (found.None? || SequenceOf(updates[n]) > SequenceOf(updates[found.value]));
      var next := if closer then Some(n) else found;
      match next case Some(i) => IsPrior(v, updates[..n + 1], i) case None => HasNone(Earlier(v), updates[..n + 1])
  {
    assert updates[..n + 1] == updates[..n] + [updates[n]];
    forall j | 0 <= j < n ensures updates[..n + 1][j] == updates[..n][j] { }
    if found.None? {
      assert forall j :: 0 <= j < n ==> !Earlier(v)(updates[..n][j]);
    }
  }

  /** One pass over the updates, loading the static schedule only when a sequence has to be checked. */
  method ScanUpdates(v: Visit, updates: seq<StopTimeUpdate>)
    returns (target: Option<nat>, stopIDFallback: Option<nat>, closestPrior: Option<nat>, propagatedDelay: int)
    ensures Chosen(v, updates, Choice(target, stopIDFallback, closestPrior))
    ensures propagatedDelay == if closestPrior.Some? then PropagatedDelay(updates[closestPrior.value]) else 0
  {
    target, stopIDFallback, closestPrior, propagatedDelay := None, None, None, 0;
    var closestPriorSequence := -1;
    var staticStops: Option<map<int, string>> := None;
    for n := 0 to |updates|
      invariant Chosen(v, updates[..n], Choice(target, stopIDFallback, closestPrior))
      invariant closestPrior.Some? ==> closestPrior.value < n
      invariant closestPriorSequence == if closestPrior.Some? then SequenceOf(updates[closestPrior.value]) else -1
      invariant propagatedDelay == if closestPrior.Some? then PropagatedDelay(updates[closestPrior.value]) else 0
      invariant staticStops.Some? ==> staticStops.value == v.schedule
    {
      var stu := updates[n];
      var sequence := if stu.sequence.Some? then stu.sequence.value else -1;
      var matchesStop := stu.stopID.Some? && stu.stopID.value == v.stopID;
      FirstStays(Visits(v), updates, n, target);
      FirstStays(StopsOnly(v), updates, n, stopIDFallback);
      PriorStays(v, updates, n, closestPrior);
      if sequence == v.sequence && (stu.stopID.None? || matchesStop) {
        if target.None? { target := Some(n); }
      } else if matchesStop && stopIDFallback.None? {
        if sequence != -1 && staticStops.None? { staticStops := Some(v.schedule); }
        var stops := if staticStops.Some? then staticStops.value else map[];
        if !SequenceIdentifiesVisit(stu, stops) { stopIDFallback := Some(n); }
      }
      if sequence != -1 && sequence < v.sequence && sequence > closestPriorSequence {
        closestPriorSequence, closestPrior := sequence, Some(n);
        propagatedDelay := 0;
        if stu.departure.Some? && stu.departure.value.delay.Some? {
          propagatedDelay := stu.departure.value.delay.value;
        } else if stu.arrival.Some? && stu.arrival.value.delay.Some? {
          propagatedDelay := stu.arrival.value.delay.value;
        }
      }
    }
    assert updates[..|updates|] == updates;
  }

  /* ---------- The result ---------- */

  /** The offsets of the two sides when the visit has an update: a missing side copies the other, and
      with both missing the delay of the closest earlier update applies. */
  function SideOffsets(u: StopTimeUpdate, v: Visit, propagated: int): (int, int) {
    var a, d := OffsetOf(u.arrival, v.arrival), OffsetOf(u.departure, v.departure);
    if a.Some? && d.Some? then (a.value, d.value)
    else if a.Some? then (a.value, a.value)
    else if d.Some? then (d.value, d.value)
    else (propagated, propagated)
  }

  function Shifted(v: Visit, offsets: (int, int)): Prediction {
    Prediction(v.arrival + offsets.0, v.departure + offsets.1)
  }

  /** The three tiers, stated over positions: the update of the visit, else the delay of the greatest
      earlier sequence, else the trip's delay, else nothing. */
  ghost predicate IsPrediction(v: Visit, t: Option<TripUpdate>, r: Option<Prediction>) {
    if t.None? then r == None
    else
      var updates := t.value.updates;
      && (forall i: nat, k: nat :: IsTarget(v, updates, i) && IsPrior(v, updates, k) ==>
            r == Some(Shifted(v, SideOffsets(updates[i], v, PropagatedDelay(updates[k])))))
      && (forall i: nat :: IsTarget(v, updates, i) && HasNone(Earlier(v), updates) ==>
            r == Some(Shifted(v, SideOffsets(updates[i], v, 0))))
      && (forall k: nat :: !HasTarget(v, updates) && IsPrior(v, updates, k) ==>
            r == Some(Shifted(v, (PropagatedDelay(updates[k]), PropagatedDelay(updates[k])))))
      && (!HasTarget(v, updates) && HasNone(Earlier(v), updates) ==>
            r == if t.value.delay.Some? then Some(Shifted(v, (t.value.delay.value, t.value.delay.value))) else None)
  }

  /** The prediction the chosen positions lead to. */
  function Decided(v: Visit, t: TripUpdate, c: Choice): Option<Prediction>
    requires (c.target.Some? ==> c.target.value < |t.updates|) && (c.fallback.Some? ==> c.fallback.value < |t.updates|)
    requires c.prior.Some? ==> c.prior.value < |t.updates|
  {
    var target := if c.target.Some? then c.target else c.fallback;
    var propagated := if c.prior.Some? then PropagatedDelay(t.updates[c.prior.value]) else 0;
    if target.Some? then Some(Shifted(v, SideOffsets(t.updates[target.value], v, propagated)))
    else if c.prior.Some? then Some(Shifted(v, (propagated, propagated)))
    else if t.delay.Some? then Some(Shifted(v, (t.delay.value, t.delay.value)))
    else None
  }

  /** Turns the chosen positions into offsets, side by side. */
  method ApplyChoice(v: Visit, t: TripUpdate, c: Choice, propagatedDelay: int) returns (r: Option<Prediction>)
    requires (c.target.Some? ==> c.target.value < |t.updates|) && (c.fallback.Some? ==> c.fallback.value < |t.updates|)
    requires c.prior.Some? ==> c.prior.value < |t.updates|
    requires propagatedDelay == if c.prior.Some? then PropagatedDelay(t.updates[c.prior.value]) else 0
    ensures r == Decided(v, t, c)
  {
    var target := c.target;
    if target.None? { target := c.fallback; }
    var arrivalOffset, departureOffset: Option<int> := None, None;
    if target.Some? {
      arrivalOffset := OffsetOf(t.updates[target.value].arrival, v.arrival);
      departureOffset := OffsetOf(t.updates[target.value].departure, v.departure);
    } else if c.prior.Some? {
      arrivalOffset, departureOffset := Some(propagatedDelay), Some(propagatedDelay);
    } else if t.delay.Some? {
      arrivalOffset, departureOffset := t.delay, t.delay;
    } else {
      return None;
    }
    if arrivalOffset.None? && departureOffset.Some? {
      arrivalOffset := departureOffset;
    } else if arrivalOffset.None? {
      arrivalOffset := Some(propagatedDelay);
    }
    if departureOffset.None? {
      departureOffset := arrivalOffset;
    }
    r := Some(Prediction(v.arrival + arrivalOffset.value, v.departure + departureOffset.value));
  }

  lemma ChoiceIsPrediction(v: Visit, t: TripUpdate, c: Choice)
    requires Chosen(v, t.updates, c)
    ensures IsPrediction(v, Some(t), Decided(v, t, c))
  {
    var updates, r := t.updates, Decided(v, t, c);
    var target := if c.target.Some? then c.target else c.fallback;
    forall i: nat | IsTarget(v, updates, i) ensures target == Some(i) && HasTarget(v, updates) { }
    forall k: nat | IsPrior(v, updates, k) ensures c.prior == Some(k) { }
  }

  method GetPredictedTimes(v: Visit, t: Option<TripUpdate>) returns (r: Option<Prediction>)
    ensures IsPrediction(v, t, r)
  {
    if t.None? { return None; }
    if |t.value.updates| == 0 && t.value.delay.None? {
      ChoiceIsPrediction(v, t.value, Choice(None, None, None));
      return None;
    }
    var target, fallback, prior, propagatedDelay := ScanUpdates(v, t.value.updates);
    ChoiceIsPrediction(v, t.value, Choice(target, fallback, prior));
    r := ApplyChoice(v, t.value, Choice(target, fallback, prior), propagatedDelay);
  }

  /* ---------- What follows ---------- */

  lemma {:induction false} ScanExists(v: Visit, updates: seq<StopTimeUpdate>) returns (c: Choice)
    ensures Chosen(v, updates, c)
  {
    if updates == [] {
      c := Choice(None, None, None);
    } else {
      var n := |updates| - 1;
      var b := ScanExists(v, updates[..n]);
      FirstStays(Visits(v), updates, n, b.target);
      FirstStays(StopsOnly(v), updates, n, b.fallback);
      PriorStays(v, updates, n, b.prior);
      assert updates[..n + 1] == updates;
      var u := updates[n];
      c := Choice(
        if b.target.None? && MatchesVisit(v, u) then Some(n) else b.target,
        if b.fallback.None? && MatchesStopOnly(v, u) then Some(n) else b.fallback,
        if IsEarlier(v, u) && (b.prior.None? || SequenceOf(u) > SequenceOf(updates[b.prior.value])) then Some(n)
            else b.prior);
    }
  }

  /** In the update's own fields: it does not name the visit; nor its stop without a sequence, or with
      one that the schedule gives another stop; nor has it an earlier sequence. */
  predicate SaysNothingOf(v: Visit, u: StopTimeUpdate) {
    var here := u.stopID == Some(v.stopID);
    && !(u.sequence.Some? && u.sequence.value == v.sequence && (u.stopID.None? || here))
    && !(u.sequence.None? && here)
    && !(u.sequence.None? && u.stopID.None? && v.sequence == -1)
    && !(u.sequence.Some? && here && v.schedule != map[]
         && (u.sequence.value in v.schedule ==> v.schedule[u.sequence.value] != v.stopID))
    && !(u.sequence.Some? && u.sequence.value < v.sequence)
  }

  lemma SaysNothingMeans(v: Visit, u: StopTimeUpdate)
    ensures SaysNothingOf(v, u) <==> !MatchesVisit(v, u) && !MatchesStopOnly(v, u) && !IsEarlier(v, u)
  {
  }

  /** An update names only the stop when its sequence is missing or contradicted by the schedule, and
      it is not that of the visit. */
  lemma StopOnlyMeans(v: Visit, u: StopTimeUpdate)
    ensures MatchesStopOnly(v, u) <==>
              && u.stopID == Some(v.stopID)
              && (if u.sequence.None? then v.sequence != -1
                  else u.sequence.value != v.sequence && v.schedule != map[]
                       && (u.sequence.value in v.schedule ==> v.schedule[u.sequence.value] != v.stopID))
  {
  }

  /** There is no prediction exactly when the trip has no delay and no update says anything of the visit. */
  lemma NoPredictionIff(v: Visit, t: TripUpdate, r: Option<Prediction>)
    requires IsPrediction(v, Some(t), r)
    ensures r.None? <==> t.delay.None? && forall i :: 0 <= i < |t.updates| ==> SaysNothingOf(v, t.updates[i])
  {
    var c := ScanExists(v, t.updates);
    DecisionIsUnique(v, t, r, c);
    forall u { SaysNothingMeans(v, u); }
    if c.prior.None? {
      forall i | 0 <= i < |t.updates| ensures !IsEarlier(v, t.updates[i]) { assert !Earlier(v)(t.updates[i]); }
    }
  }

  /** The three tiers leave no freedom. */
  lemma DecisionIsUnique(v: Visit, t: TripUpdate, r: Option<Prediction>, c: Choice)
    requires IsPrediction(v, Some(t), r) && Chosen(v, t.updates, c)
    ensures r == Decided(v, t, c)
  {
  }

  /** The update used for the visit decides: an absolute time it gives is returned exactly. */
  lemma ExplicitTimeIsExact(v: Visit, t: TripUpdate, r: Option<Prediction>, i: nat)
    requires IsPrediction(v, Some(t), r) && IsTarget(v, t.updates, i)
    ensures r.Some?
    ensures t.updates[i].arrival.Some? && t.updates[i].arrival.value.time.Some? ==>
              r.value.arrival == t.updates[i].arrival.value.time.value
    ensures t.updates[i].departure.Some? && t.updates[i].departure.value.time.Some? ==>
              r.value.departure == t.updates[i].departure.value.time.value
  {
    var c := ScanExists(v, t.updates);
    DecisionIsUnique(v, t, r, c);
  }

  /** The event moves its scheduled time by the shift: to the time it gives, or by the delay it gives. */
  predicate Shifts(e: Option<StopTimeEvent>, scheduled: int, shift: int) {
    e.Some? && (e.value.time == Some(scheduled + shift) || (e.value.time == None && e.value.delay == Some(shift)))
  }

  predicate IsSilent(e: Option<StopTimeEvent>) {
    e.None? || (e.value.time == None && e.value.delay == None)
  }

  /** The delay an earlier update passes on: that of its departure, or of its arrival when the departure
      gives none, or zero when neither does. */
  predicate PassesOn(u: StopTimeUpdate, delay: int) {
    if u.departure.Some? && u.departure.value.delay != None then u.departure.value.delay == Some(delay)
    else if u.arrival.Some? && u.arrival.value.delay != None then u.arrival.value.delay == Some(delay)
    else delay == 0
  }

  lemma SidesMove(u: StopTimeUpdate, v: Visit, propagated: int)
    ensures var (a, d) := SideOffsets(u, v, propagated);
      && (!IsSilent(u.arrival) ==> Shifts(u.arrival, v.arrival, a))
      && (!IsSilent(u.departure) ==> Shifts(u.departure, v.departure, d))
      && (IsSilent(u.arrival) || IsSilent(u.departure) ==> a == d)
      && (IsSilent(u.arrival) && IsSilent(u.departure) ==> a == propagated)
  {
  }

  /** The delay passed on to the visit: what the closest earlier update passes on, or none. */
  ghost predicate IsPassedOn(v: Visit, updates: seq<StopTimeUpdate>, delay: int) {
    && (forall k: nat :: IsPrior(v, updates, k) ==> PassesOn(updates[k], delay))
    && (HasNone(Earlier(v), updates) ==> delay == 0)
  }

  lemma OnlyOnePrior(v: Visit, updates: seq<StopTimeUpdate>, c: Choice)
    requires Chosen(v, updates, c)
    ensures forall k: nat :: IsPrior(v, updates, k) ==> c.prior == Some(k)
    ensures c.prior.None? <==> HasNone(Earlier(v), updates)
  {
  }

  lemma ChosenPassesOn(v: Visit, updates: seq<StopTimeUpdate>, c: Choice)
    requires Chosen(v, updates, c)
    ensures IsPassedOn(v, updates, if c.prior.Some? then PropagatedDelay(updates[c.prior.value]) else 0)
  {
    OnlyOnePrior(v, updates, c);
  }

  function TargetOf(c: Choice): Option<nat> {
    if c.target.Some? then c.target else c.fallback
  }

  lemma ChosenTarget(v: Visit, updates: seq<StopTimeUpdate>, c: Choice)
    requires Chosen(v, updates, c)
    ensures forall i: nat :: IsTarget(v, updates, i) ==> i < |updates| && TargetOf(c) == Some(i)
    ensures !HasTarget(v, updates) ==> TargetOf(c).None?
  {
  }

  /** Each side that update i speaks of moves as it says, a silent side moves with the other, and when
      both are silent the visit moves by the delay passed on to it. */
  ghost predicate MovesAsTold(v: Visit, updates: seq<StopTimeUpdate>, i: nat, r: Option<Prediction>)
    requires i < |updates|
  {
    r.Some? && var u, a, d := updates[i], r.value.arrival - v.arrival, r.value.departure - v.departure;
    && (!IsSilent(u.arrival) ==> Shifts(u.arrival, v.arrival, a))
    && (!IsSilent(u.departure) ==> Shifts(u.departure, v.departure, d))
    && (IsSilent(u.arrival) || IsSilent(u.departure) ==> a == d)
    && (IsSilent(u.arrival) && IsSilent(u.departure) ==> IsPassedOn(v, updates, a))
  }

  lemma DecidedMovesAsTold(v: Visit, t: TripUpdate, c: Choice, i: nat)
    requires Chosen(v, t.updates, c) && TargetOf(c) == Some(i)
    ensures i < |t.updates| && MovesAsTold(v, t.updates, i, Decided(v, t, c))
  {
    SidesMove(t.updates[i], v, if c.prior.Some? then PropagatedDelay(t.updates[c.prior.value]) else 0);
    ChosenPassesOn(v, t.updates, c);
  }

  /** The update used for the visit decides how it moves, in its own times and delays. */
  lemma TargetMovesVisit(v: Visit, t: TripUpdate, r: Option<Prediction>, i: nat)
    requires IsPrediction(v, Some(t), r) && i < |t.updates| && IsTarget(v, t.updates, i)
    ensures MovesAsTold(v, t.updates, i, r)
  {
    var c := ScanExists(v, t.updates);
    DecisionIsUnique(v, t, r, c);
    ChosenTarget(v, t.updates, c);
    DecidedMovesAsTold(v, t, c, i);
  }

  /** Both times move by what the closest earlier update passes on, or, with no earlier update, by the
      trip's delay, and without one there is no prediction. */
  ghost predicate MovesWithTrip(v: Visit, t: TripUpdate, r: Option<Prediction>) {
    if r.None? then HasNone(Earlier(v), t.updates) && t.delay.None?
    else
      var a, d := r.value.arrival - v.arrival, r.value.departure - v.departure;
      a == d && if HasNone(Earlier(v), t.updates) then t.delay == Some(a) else IsPassedOn(v, t.updates, a)
  }

  lemma DecidedMovesWithTrip(v: Visit, t: TripUpdate, c: Choice)
    requires Chosen(v, t.updates, c) && TargetOf(c).None?
    ensures MovesWithTrip(v, t, Decided(v, t, c))
  {
    OnlyOnePrior(v, t.updates, c);
    ChosenPassesOn(v, t.updates, c);
  }

  /** Without an update for the visit it moves with the trip. */
  lemma VisitMovesWithTrip(v: Visit, t: TripUpdate, r: Option<Prediction>)
    requires IsPrediction(v, Some(t), r) && !HasTarget(v, t.updates)
    ensures MovesWithTrip(v, t, r)
  {
    var c := ScanExists(v, t.updates);
    DecisionIsUnique(v, t, r, c);
    ChosenTarget(v, t.updates, c);
    DecidedMovesWithTrip(v, t, c);
  }

  /** Both sides of the update used for the visit carry a time or a delay. */
  ghost predicate BothSidesGiven(v: Visit, updates: seq<StopTimeUpdate>) {
    exists i: nat :: IsTarget(v, updates, i)
                     && OffsetOf(updates[i].arrival, 0).Some? && OffsetOf(updates[i].departure, 0).Some?
  }

  /** Unless the update used for the visit gives both sides, the predicted dwell is the scheduled one. */
  lemma DwellIsKept(v: Visit, t: TripUpdate, r: Option<Prediction>)
    requires IsPrediction(v, Some(t), r) && r.Some?
    ensures r.value.departure - r.value.arrival == v.departure - v.arrival || BothSidesGiven(v, t.updates)
  {
    var c := ScanExists(v, t.updates);
    DecisionIsUnique(v, t, r, c);
    var target := if c.target.Some? then c.target else c.fallback;
    if target.Some? {
      var u := t.updates[target.value];
      if OffsetOf(u.arrival, v.arrival).Some? && OffsetOf(u.departure, v.departure).Some? {
        assert IsTarget(v, t.updates, target.value) && OffsetOf(u.arrival, 0).Some?;
      }
    }
  }
}
