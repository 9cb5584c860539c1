/** The polling loop of one realtime feed and its circuit breaker: after five minutes without a
    success the feed's data is dropped, once per outage (internal/gtfs/realtime.go). */
module FeedPoller {
  import opened Collections
  import opened RealtimeTypes
  import opened RealtimeFeeds
  import opened MergedSnapshot
  import opened FeedRuns
  import opened FeedManager

  /** What the loop keeps between polls. */
  datatype Memory = Memory(lastSuccess: int, feedCleared: bool)

  /** A poll of this feed, with its two clock readings, or whatever the manager does for another feed. */
  datatype Observation =
    | OwnPoll(update: Update, checkedAt: int, succeededAt: int)
    | Elsewhere(event: Event)

  predicate Breaks(m: Memory, o: Observation) {
    o.OwnPoll? && !Succeeds(o.update) && o.checkedAt - m.lastSuccess > STALE_FEED_THRESHOLD && !m.feedCleared
  }

  function AfterPoll(m: Memory, o: Observation): Memory {
    if o.Elsewhere? then m
    else if Succeeds(o.update) then Memory(o.succeededAt, false)
    else m.(feedCleared := m.feedCleared || Breaks(m, o))
  }

  /** The changes one observation makes to the manager's maps. */
  function Emits(m: Memory, id: string, o: Observation): seq<Event> {
    match o
    case Elsewhere(e) => [e]
    case OwnPoll(u, _, _) => if Breaks(m, o) then [UpdateFeed(id, u), ClearFeed(id)] else [UpdateFeed(id, u)]
  }

  /** One poll, carried out on the manager. */
  class Poller {
    const id: string
    const manager: Manager
    var lastSuccessfulFetch: int
    var feedCleared: bool

    constructor (id: string, manager: Manager, now: int)
      ensures this.id == id && this.manager == manager && View() == Memory(now, false)
    {
      this.id, this.manager := id, manager;
      lastSuccessfulFetch, feedCleared := now, false;
    }

    ghost function View(): Memory
      reads this
    {
      Memory(lastSuccessfulFetch, feedCleared)
    }

    method PollOnce(u: Update, checkedAt: int, succeededAt: int)
      requires manager.Valid()
      modifies this`lastSuccessfulFetch, this`feedCleared, manager
      ensures manager.Valid()
      ensures var o := OwnPoll(u, checkedAt, succeededAt);
        && View() == AfterPoll(old(View()), o)
        && manager.View() == FeedRuns.Run(old(manager.View()), Emits(old(View()), id, o))
    {
      ghost var f := manager.View();
      ShortRuns(f, UpdateFeed(id, u), ClearFeed(id));
      var hasNewData := manager.UpdateFeedRealtime(id, u);
      if hasNewData {
        lastSuccessfulFetch := succeededAt;
        feedCleared := false;
      } else if checkedAt - lastSuccessfulFetch > STALE_FEED_THRESHOLD {
        if !feedCleared {
          manager.ClearFeedData(id);
          feedCleared := true;
        }
      }
    }
  }

  lemma ShortRuns(f: Feeds, e: Event, g: Event)
    ensures FeedRuns.Run(f, [e]) == Step(f, e)
    ensures FeedRuns.Run(f, [e, g]) == Step(Step(f, e), g)
  {
    assert [e][..0] == [] && [e, g][..1] == [e];
  }

  lemma {:induction false} RunConcat(f: Feeds, s: seq<Event>, t: seq<Event>)
    ensures FeedRuns.Run(f, s + t) == FeedRuns.Run(FeedRuns.Run(f, s), t)
  {
    if t == [] {
      assert s + t == s;
    } else {
      assert (s + t)[..|s + t| - 1] == s + t[..|t| - 1];
      RunConcat(f, s, t[..|t| - 1]);
    }
  }

  /* ---------- Runs of one poller among the others ---------- */

  function MemoryAfter(start: int, obs: seq<Observation>): Memory {
    if obs == [] then Memory(start, false) else AfterPoll(MemoryAfter(start, obs[..|obs| - 1]), obs[|obs| - 1])
  }

  function Trace(start: int, id: string, obs: seq<Observation>): seq<Event> {
    if obs == [] then []
    else
      var before := obs[..|obs| - 1];
      Trace(start, id, before) + Emits(MemoryAfter(start, before), id, obs[|obs| - 1])
  }

  /** The manager's maps after a run of the poller. */
  function FeedsAfter(f: Feeds, start: int, id: string, obs: seq<Observation>): Feeds {
    FeedRuns.Run(f, Trace(start, id, obs))
  }

  predicate SucceedsAt(o: Observation) {
    o.OwnPoll? && Succeeds(o.update)
  }

  /** When the feed last delivered; the poller's start counts as a success. */
  function LastSuccess(start: int, obs: seq<Observation>): int {
    if obs == [] then start
    else if SucceedsAt(obs[|obs| - 1]) then obs[|obs| - 1].succeededAt
    else LastSuccess(start, obs[..|obs| - 1])
  }

  /** The last poll failed more than the threshold after the last success. */
  predicate FailedLate(start: int, obs: seq<Observation>) {
    obs != [] && var o := obs[|obs| - 1];
    o.OwnPoll? && !Succeeds(o.update) && o.checkedAt - LastSuccess(start, obs) > STALE_FEED_THRESHOLD
  }

  /** Some poll of the outage the run ends in failed late. */
  predicate OutageIsLong(start: int, obs: seq<Observation>) {
    obs != [] && !SucceedsAt(obs[|obs| - 1]) && (FailedLate(start, obs) || OutageIsLong(start, obs[..|obs| - 1]))
  }

  /** The clears of the feed during the outage the run ends in. */
  function ClearsInOutage(start: int, id: string, obs: seq<Observation>): nat {
    if obs == [] || SucceedsAt(obs[|obs| - 1]) then 0
    else
      var before, o := obs[..|obs| - 1], obs[|obs| - 1];
      ClearsInOutage(start, id, before) + if ClearFeed(id) in Emits(MemoryAfter(start, before), id, o) then 1 else 0
  }

  predicate OthersLeaveFeedAlone(id: string, obs: seq<Observation>) {
    forall i :: 0 <= i < |obs| && obs[i].Elsewhere? ==> obs[i].event.id != id
  }

  predicate FeedIsEmpty(f: Feeds, id: string) {
    Get(f.trips, id) == [] && Get(f.vehicles, id) == [] && Get(f.alerts, id) == []
  }

  lemma {:induction false} MemoryIsLastSuccess(start: int, obs: seq<Observation>)
    ensures MemoryAfter(start, obs).lastSuccess == LastSuccess(start, obs)
  {
    if obs != [] { MemoryIsLastSuccess(start, obs[..|obs| - 1]); }
  }

  /** An outage is cleared once when some poll in it failed late, and not at all otherwise. */
  lemma {:induction false} ClearedOncePerOutage(start: int, id: string, obs: seq<Observation>)
    requires OthersLeaveFeedAlone(id, obs)
    ensures ClearsInOutage(start, id, obs) == if OutageIsLong(start, obs) then 1 else 0
    ensures MemoryAfter(start, obs).feedCleared <==> OutageIsLong(start, obs)
  {
    if obs != [] {
      ClearedOncePerOutage(start, id, obs[..|obs| - 1]);
      MemoryIsLastSuccess(start, obs[..|obs| - 1]);
    }
  }

  lemma OtherFeedsStep(f: Feeds, e: Event, id: string)
    requires e.id != id
    ensures Get(Step(f, e).trips, id) == Get(f.trips, id)
    ensures Get(Step(f, e).vehicles, id) == Get(f.vehicles, id)
    ensures Get(Step(f, e).alerts, id) == Get(f.alerts, id)
  {
    VehiclesAfterStep(f, e, id);
    assert VehiclesOf(Step(f, e), id).vehicles == Get(Step(f, e).vehicles, id);
  }

  lemma EmptyAfterOne(f: Feeds, m: Memory, id: string, o: Observation)
    requires o.Elsewhere? ==> o.event.id != id
    requires m.feedCleared ==> FeedIsEmpty(f, id)
    ensures AfterPoll(m, o).feedCleared ==> FeedIsEmpty(FeedRuns.Run(f, Emits(m, id, o)), id)
  {
    match o
    case Elsewhere(e) =>
      ShortRuns(f, e, e);
      OtherFeedsStep(f, e, id);
    case OwnPoll(u, _, _) =>
      ShortRuns(f, UpdateFeed(id, u), ClearFeed(id));
      FailedUpdateChangesNothing(f, id, u);
  }

  /** While the breaker is open the feed has no data, whatever the other feeds do. */
  lemma {:induction false} ClearedFeedStaysEmpty(f: Feeds, start: int, id: string, obs: seq<Observation>)
    requires OthersLeaveFeedAlone(id, obs)
    ensures MemoryAfter(start, obs).feedCleared ==> FeedIsEmpty(FeedsAfter(f, start, id, obs), id)
  {
    if obs != [] {
      var before, o := obs[..|obs| - 1], obs[|obs| - 1];
      ClearedFeedStaysEmpty(f, start, id, before);
      EmptyAfterOne(FeedsAfter(f, start, id, before), MemoryAfter(start, before), id, o);
      RunConcat(f, Trace(start, id, before), Emits(MemoryAfter(start, before), id, o));
    }
  }

  /** After every poll that fails more than five minutes after the last success, the feed has no
      data, the published snapshot is the one without the feed, and the outage cleared it once. */
  lemma StaleFeedIsGone(f: Feeds, start: int, id: string, obs: seq<Observation>)
    requires OthersLeaveFeedAlone(id, obs) && FailedLate(start, obs)
    ensures var g := FeedsAfter(f, start, id, obs);
      && FeedIsEmpty(g, id)
      && Rebuild(g) == Rebuild(g.(trips := Without(g.trips, id), vehicles := Without(g.vehicles, id),
                                  alerts := Without(g.alerts, id)))
    ensures ClearsInOutage(start, id, obs) == 1
  {
    ClearedOncePerOutage(start, id, obs);
    ClearedFeedStaysEmpty(f, start, id, obs);
    EmptyFeedContributesNothing(FeedsAfter(f, start, id, obs), id);
  }

  /** Until the breaker opens, failed polls keep the last delivered data on view. */
  lemma {:induction false} ShortOutageKeepsData(f: Feeds, start: int, id: string, obs: seq<Observation>)
    requires OthersLeaveFeedAlone(id, obs)
    requires forall i :: 0 <= i < |obs| ==> !SucceedsAt(obs[i])
    requires !OutageIsLong(start, obs)
    ensures var g := FeedsAfter(f, start, id, obs);
      && Get(g.trips, id) == Get(f.trips, id)
      && Get(g.vehicles, id) == Get(f.vehicles, id)
      && Get(g.alerts, id) == Get(f.alerts, id)
  {
    if obs != [] {
      var before, o := obs[..|obs| - 1], obs[|obs| - 1];
      ShortOutageKeepsData(f, start, id, before);
      ClearedOncePerOutage(start, id, obs);
      MemoryIsLastSuccess(start, before);
      var m, g := MemoryAfter(start, before), FeedsAfter(f, start, id, before);
      RunConcat(f, Trace(start, id, before), Emits(m, id, o));
      match o
      case Elsewhere(e) =>
        ShortRuns(g, e, e);
        OtherFeedsStep(g, e, id);
      case OwnPoll(u, _, _) =>
        assert !SucceedsAt(obs[|obs| - 1]);
        ShortRuns(g, UpdateFeed(id, u), UpdateFeed(id, u));
        FailedUpdateChangesNothing(g, id, u);
    }
  }
}
