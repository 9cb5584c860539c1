/** The feeder / worker pool / collector arrangement shared by the bulk inserts
    (gtfsdb/helpers.go) and the direction precomputation (internal/gtfs/direction_precomputer.go).

    Work items are the indices 0..items. A feeder goroutine writes them to a bounded channel and
    closes it, each worker turns an index into an output on a second bounded channel, a closer
    closes that channel once every worker has left, and the caller collects until it is closed.
    The context may be cancelled between any two steps. One step is one channel operation or one
    look at the context, so the runs below are all interleavings.

    The two users differ in how they react to a cancelled context:
      - bulk insert: the feeder watches the context, a worker drops its item and leaves;
      - precomputation: the feeder does not watch, a worker sends an empty output, then empties
        the input channel before it leaves. */
module WorkerPipeline {

  datatype Config = Config(
    items: nat, workers: nat, inputCap: nat, outputCap: nat,
    feederWatches: bool, workersDrain: bool)

  predicate ValidConfig(c: Config) {
    c.workers >= 1 && c.inputCap >= 1 && c.outputCap >= 1
  }

  /** `computed` is false for the empty output of a cancelled worker. */
  datatype Output = Output(index: nat, computed: bool)

  datatype Worker =
    | Idle
    | Holding(index: nat)
    | Sending(output: Output, thenDrain: bool)
    | Draining
    | Left

  /** The channels are `input` (open while `feeding`) and `output`; `discarded` records items
      given up after a cancellation and steers nothing. */
  datatype State = State(
    next: nat, feeding: bool, input: seq<nat>,
    workers: seq<Worker>,
    output: seq<Output>, outputOpen: bool,
    collected: seq<Output>, collecting: bool,
    cancelled: bool, discarded: multiset<nat>)

  datatype Step =
    | Cancel
    | Feed
    | StopFeeding
    | Take(w: nat)
    | Check(w: nat)
    | Send(w: nat)
    | Drain(w: nat)
    | Leave(w: nat)
    | CloseOutput
    | Collect
    | StopCollecting

  function Init(c: Config): State {
    State(0, true, [], seq(c.workers, _ => Idle), [], true, [], true, false, multiset{})
  }

  predicate AllLeft(workers: seq<Worker>) {
    forall w :: 0 <= w < |workers| ==> workers[w].Left?
  }

  predicate Enabled(c: Config, s: State, step: Step) {
    match step
    case Cancel => !s.cancelled
    case Feed => s.feeding && s.next < c.items && |s.input| < c.inputCap
    case StopFeeding => s.feeding && (s.next == c.items || (c.feederWatches && s.cancelled))
    case Take(w) => w < |s.workers| && s.workers[w].Idle? && s.input != []
    case Check(w) => w < |s.workers| && s.workers[w].Holding?
    case Send(w) => w < |s.workers| && s.workers[w].Sending? && |s.output| < c.outputCap
    case Drain(w) => w < |s.workers| && s.workers[w].Draining? && s.input != []
    case Leave(w) => w < |s.workers| && (s.workers[w].Idle? || s.workers[w].Draining?) && s.input == [] && !s.feeding
    case CloseOutput => s.outputOpen && AllLeft(s.workers)
    case Collect => s.collecting && s.output != []
    case StopCollecting => s.collecting && s.output == [] && !s.outputOpen
  }

  /** A worker that has received an item looks at the context before working on it. */
  function Checked(c: Config, cancelled: bool, index: nat): Worker {
    if !cancelled then Sending(Output(index, true), false)
    else if c.workersDrain then Sending(Output(index, false), true)
    else Left
  }

  function Apply(c: Config, s: State, step: Step): State
    requires Enabled(c, s, step)
  {
    match step
    case Cancel => s.(cancelled := true)
    case Feed => s.(next := s.next + 1, input := s.input + [s.next])
    case StopFeeding => s.(feeding := false)
    case Take(w) => s.(workers := s.workers[w := Holding(s.input[0])], input := s.input[1..])
    case Check(w) =>
      var after := Checked(c, s.cancelled, s.workers[w].index);
      s.(workers := s.workers[w := after],
         discarded := s.discarded + if after.Left? then multiset{s.workers[w].index} else multiset{})
    case Send(w) =>
      s.(workers := s.workers[w := if s.workers[w].thenDrain then Draining else Idle],
         output := s.output + [s.workers[w].output])
    case Drain(w) => s.(input := s.input[1..], discarded := s.discarded + multiset{s.input[0]})
    case Leave(w) => s.(workers := s.workers[w := Left])
    case CloseOutput => s.(outputOpen := false)
    case Collect => s.(output := s.output[1..], collected := s.collected + [s.output[0]])
    case StopCollecting => s.(collecting := false)
  }

  /** The call returns when the collector stops; nothing is leaked if the feeder stops too. */
  predicate Finished(s: State) {
    !s.collecting && !s.feeding
  }

  /* ---------- Runs ---------- */

  predicate IsRun(c: Config, steps: seq<Step>)
    decreases |steps|, 0
  {
    steps == [] ||
    (IsRun(c, steps[..|steps| - 1]) && Enabled(c, After(c, steps[..|steps| - 1]), steps[|steps| - 1]))
  }

  /** The state a run reaches from the initial one. */
  function After(c: Config, steps: seq<Step>): State
    requires IsRun(c, steps)
    decreases |steps|, 1
  {
    if steps == [] then Init(c)
    else Apply(c, After(c, steps[..|steps| - 1]), steps[|steps| - 1])
  }

  /* ---------- Where every item is ---------- */

  function InHand(w: Worker, item: nat): nat {
    match w
    case Holding(i) => One(i == item)
    case Sending(o, _) => One(o.index == item)
    case _ => 0
  }

  function InHands(workers: seq<Worker>, item: nat): nat {
    if workers == [] then 0
    else InHands(workers[..|workers| - 1], item) + InHand(workers[|workers| - 1], item)
  }

  function Indices(outputs: seq<Output>): seq<nat> {
    seq(|outputs|, i requires 0 <= i < |outputs| => outputs[i].index)
  }

  function Occurrences(s: seq<nat>, item: nat): nat {
    multiset(s)[item]
  }

  /** How many copies of an item exist, over both channels, every worker, the collection and the discards. */
  function Copies(s: State, item: nat): nat {
    Occurrences(s.input, item) + InHands(s.workers, item) + Occurrences(Indices(s.output), item)
    + Occurrences(Indices(s.collected), item) + s.discarded[item]
  }

  /** Every item handed out is in exactly one place, and no other item is anywhere. */
  ghost predicate Conserved(s: State) {
    forall item: nat :: Copies(s, item) == One(item < s.next)
  }

  lemma {:induction false} InHandsUpdate(workers: seq<Worker>, w: nat, x: Worker, item: nat)
    requires w < |workers|
    ensures InHands(workers[w := x], item) + InHand(workers[w], item) == InHands(workers, item) + InHand(x, item)
  {
    var last := |workers| - 1;
    if w == last {
      assert workers[w := x][..last] == workers[..last];
    } else {
      assert workers[w := x][..last] == workers[..last][w := x];
      InHandsUpdate(workers[..last], w, x, item);
    }
  }

  lemma {:induction false} EmptyHands(workers: seq<Worker>, item: nat)
    requires forall w :: 0 <= w < |workers| ==> InHand(workers[w], item) == 0
    ensures InHands(workers, item) == 0
  {
    if workers != [] { EmptyHands(workers[..|workers| - 1], item); }
  }

  lemma PushPop(s: seq<nat>, x: nat, item: nat)
    ensures Occurrences(s + [x], item) == Occurrences(s, item) + One(x == item)
    ensures s != [] ==> Occurrences(s, item) == One(s[0] == item) + Occurrences(s[1..], item)
  {
    if s != [] { assert s == [s[0]] + s[1..]; }
  }

  lemma IndicesPushPop(s: seq<Output>, o: Output)
    ensures Indices(s + [o]) == Indices(s) + [o.index]
    ensures s != [] ==> Indices(s)[1..] == Indices(s[1..])
  {
  }

  lemma ConservedByChannels(c: Config, s: State, step: Step, item: nat)
    requires Enabled(c, s, step) && (step.Feed? || step.Collect?)
    requires Copies(s, item) == One(item < s.next)
    ensures Copies(Apply(c, s, step), item) == One(item < Apply(c, s, step).next)
  {
    if step.Feed? {
      PushPop(s.input, s.next, item);
    } else {
      var o := s.output[0];
      IndicesPushPop(s.output, o);
      IndicesPushPop(s.collected, o);
      PushPop(Indices(s.output), o.index, item);
      PushPop(Indices(s.collected), o.index, item);
    }
  }

  lemma ConservedByTake(c: Config, s: State, w: nat, item: nat)
    requires Enabled(c, s, Take(w))
    ensures Copies(Apply(c, s, Take(w)), item) == Copies(s, item)
  {
    InHandsUpdate(s.workers, w, Holding(s.input[0]), item);
    PushPop(s.input, 0, item);
  }

  lemma ConservedBySend(c: Config, s: State, w: nat, item: nat)
    requires Enabled(c, s, Send(w))
    ensures Copies(Apply(c, s, Send(w)), item) == Copies(s, item)
  {
    var o := s.workers[w].output;
    InHandsUpdate(s.workers, w, if s.workers[w].thenDrain then Draining else Idle, item);
    IndicesPushPop(s.output, o);
    PushPop(Indices(s.output), o.index, item);
  }

  lemma ConservedByWorkers(c: Config, s: State, step: Step, item: nat)
    requires Enabled(c, s, step)
    requires step.Take? || step.Check? || step.Send? || step.Leave?
    requires Copies(s, item) == One(item < s.next)
    ensures Copies(Apply(c, s, step), item) == One(item < s.next)
  {
    if step.Take? {
      ConservedByTake(c, s, step.w, item);
    } else if step.Send? {
      ConservedBySend(c, s, step.w, item);
    } else {
      InHandsUpdate(s.workers, step.w, Apply(c, s, step).workers[step.w], item);
    }
  }

  lemma ConservedByRest(c: Config, s: State, step: Step, item: nat)
    requires Enabled(c, s, step)
    requires step.Drain? || step.Cancel? || step.StopFeeding? || step.CloseOutput? || step.StopCollecting?
    ensures Copies(Apply(c, s, step), item) == Copies(s, item)
    ensures Apply(c, s, step).next == s.next
  {
    var t := Apply(c, s, step);
    if step.Drain? {
      PushPop(s.input, 0, item);
    } else {
      assert t.input == s.input && t.workers == s.workers && t.output == s.output;
      assert t.collected == s.collected && t.discarded == s.discarded;
    }
  }

  lemma ConservedKept(c: Config, s: State, step: Step)
    requires Enabled(c, s, step) && Conserved(s)
    ensures Conserved(Apply(c, s, step))
  {
    forall item: nat ensures Copies(Apply(c, s, step), item) == One(item < Apply(c, s, step).next) {
      if step.Feed? || step.Collect? {
        ConservedByChannels(c, s, step, item);
      } else if step.Take? || step.Check? || step.Send? || step.Leave? {
        ConservedByWorkers(c, s, step, item);
      } else {
        ConservedByRest(c, s, step, item);
      }
    }
  }

  /* ---------- Control invariant ---------- */

  predicate CancelledOnly(c: Config, w: Worker) {
    w.Draining? || (w.Sending? && (w.thenDrain || !w.output.computed))
  }

  predicate AllComputed(outputs: seq<Output>) {
    forall i :: 0 <= i < |outputs| ==> outputs[i].computed
  }

  predicate Orderly(c: Config, s: State) {
    && |s.workers| == c.workers
    && s.next <= c.items
    && (!s.feeding ==> s.next == c.items || (c.feederWatches && s.cancelled))
    && (!s.outputOpen ==> AllLeft(s.workers))
    && (!s.collecting ==> !s.outputOpen && s.output == [])
    && (forall w :: 0 <= w < |s.workers| && s.workers[w].Left? ==>
          (!s.feeding && s.input == []) || (s.cancelled && !c.workersDrain))
  }

  /** What holds as long as nobody has cancelled. */
  predicate Undisturbed(c: Config, s: State) {
    !s.cancelled ==>
      && s.discarded == multiset{}
      && (forall w :: 0 <= w < |s.workers| ==> !CancelledOnly(c, s.workers[w]))
      && AllComputed(s.output) && AllComputed(s.collected)
  }

  lemma OrderlyKept(c: Config, s: State, step: Step)
    requires Orderly(c, s) && Enabled(c, s, step)
    ensures Orderly(c, Apply(c, s, step))
  {
  }

  lemma UndisturbedKept(c: Config, s: State, step: Step)
    requires Undisturbed(c, s) && Enabled(c, s, step)
    ensures Undisturbed(c, Apply(c, s, step))
  {
  }

  lemma {:induction false} InvariantHolds(c: Config, steps: seq<Step>)
    requires ValidConfig(c) && IsRun(c, steps)
    ensures Orderly(c, After(c, steps)) && Undisturbed(c, After(c, steps)) && Conserved(After(c, steps))
    decreases |steps|
  {
    if steps == [] {
      forall item: nat ensures Copies(Init(c), item) == 0 {
        EmptyHands(Init(c).workers, item);
        assert Indices([]) == [];
      }
    } else {
      var before, step := After(c, steps[..|steps| - 1]), steps[|steps| - 1];
      InvariantHolds(c, steps[..|steps| - 1]);
      OrderlyKept(c, before, step);
      UndisturbedKept(c, before, step);
      ConservedKept(c, before, step);
    }
  }

  /* ---------- No deadlock ---------- */

  /** A run that cannot go on although it is not finished; a cancellation does not count as going on. */
  ghost predicate Stuck(c: Config, s: State) {
    !Finished(s) && forall step :: Enabled(c, s, step) ==> step.Cancel?
  }

  lemma WorkerCanMove(c: Config, s: State, w: nat)
    requires ValidConfig(c) && Orderly(c, s)
    requires w < |s.workers| && !s.workers[w].Left? && s.output == []
    ensures !Stuck(c, s)
  {
    if s.workers[w].Holding? {
      assert Enabled(c, s, Check(w));
    } else if s.workers[w].Sending? {
      assert Enabled(c, s, Send(w));
    } else if s.input != [] {
      assert Enabled(c, s, Take(w)) || Enabled(c, s, Drain(w));
    } else if s.feeding {
      assert Enabled(c, s, Feed) || Enabled(c, s, StopFeeding);
    } else {
      assert Enabled(c, s, Leave(w));
    }
  }

  /** No reachable state is deadlocked, before or after a cancellation, provided the feeder watches
      the context or cancelled workers drain the input channel. */
  lemma NeverStuck(c: Config, steps: seq<Step>)
    requires ValidConfig(c) && IsRun(c, steps)
    requires c.feederWatches || c.workersDrain
    ensures !Stuck(c, After(c, steps))
  {
    var s := After(c, steps);
    InvariantHolds(c, steps);
    if s.collecting && s.output != [] {
      assert Enabled(c, s, Collect);
    } else if s.collecting && !s.outputOpen {
      assert Enabled(c, s, StopCollecting);
    } else if s.collecting && AllLeft(s.workers) {
      assert Enabled(c, s, CloseOutput);
    } else if s.collecting {
      var w :| 0 <= w < |s.workers| && !s.workers[w].Left?;
      WorkerCanMove(c, s, w);
    } else if s.feeding {
      assert s.workers[0].Left?;
      assert Enabled(c, s, StopFeeding);
    }
  }

  /** With neither, a cancellation leaves the feeder blocked on a full channel for good. */
  lemma StuckWithoutEither()
    ensures exists c: Config, steps ::
      ValidConfig(c) && !c.feederWatches && !c.workersDrain && IsRun(c, steps) && Stuck(c, After(c, steps))
  {
    var c := Config(3, 1, 1, 1, false, false);
    StuckRunBegins(c);
    var steps := StuckRunEnds(c, [Feed, Take(0), Cancel, Check(0)]);
    BlockedFeeder(c, After(c, steps));
  }

  /** Progress for every workload and schedule is exactly that choice: watch, or drain. */
  lemma ProgressCondition(watches: bool, drains: bool)
    ensures watches || drains <==>
              forall c: Config, steps ::
                ValidConfig(c) && c.feederWatches == watches && c.workersDrain == drains && IsRun(c, steps) ==>
                  !Stuck(c, After(c, steps))
  {
    if watches || drains {
      forall c: Config, steps | ValidConfig(c) && c.feederWatches == watches && c.workersDrain == drains
          && IsRun(c, steps)
        ensures !Stuck(c, After(c, steps))
      {
        NeverStuck(c, steps);
      }
    } else {
      StuckWithoutEither();
    }
  }

  lemma BlockedFeeder(c: Config, s: State)
    requires c == Config(3, 1, 1, 1, false, false)
    requires s == State(2, true, [1], [Left], [], false, [], false, true, multiset{0})
    ensures Stuck(c, s)
  {
    forall step | Enabled(c, s, step) ensures step.Cancel? { }
  }

  lemma StuckRunBegins(c: Config)
    requires c == Config(3, 1, 1, 1, false, false)
    ensures IsRun(c, [Feed, Take(0), Cancel, Check(0)])
    ensures After(c, [Feed, Take(0), Cancel, Check(0)]) ==
              State(1, true, [], [Left], [], true, [], true, true, multiset{0})
  {
    var s0 := State(0, true, [], [Idle], [], true, [], true, false, multiset{});
    assert Init(c) == s0;
    var s1 := s0.(next := 1, input := [0]);
    Extend(c, [], Feed, s0, s1);
    var s2 := s1.(workers := [Holding(0)], input := []);
    Extend(c, [Feed], Take(0), s1, s2);
    var s3 := s2.(cancelled := true);
    Extend(c, [Feed, Take(0)], Cancel, s2, s3);
    var s4 := s3.(workers := [Left], discarded := multiset{0});
    Extend(c, [Feed, Take(0), Cancel], Check(0), s3, s4);
    assert [] + [Feed] == [Feed] && [Feed] + [Take(0)] == [Feed, Take(0)];
    assert [Feed, Take(0)] + [Cancel] == [Feed, Take(0), Cancel];
    assert [Feed, Take(0), Cancel] + [Check(0)] == [Feed, Take(0), Cancel, Check(0)];
  }

  lemma StuckRunEnds(c: Config, begun: seq<Step>) returns (steps: seq<Step>)
    requires c == Config(3, 1, 1, 1, false, false) && IsRun(c, begun)
    requires After(c, begun) == State(1, true, [], [Left], [], true, [], true, true, multiset{0})
    ensures IsRun(c, steps)
    ensures After(c, steps) == State(2, true, [1], [Left], [], false, [], false, true, multiset{0})
  {
    var s4 := After(c, begun);
    var s5 := s4.(next := 2, input := [1]);
    Extend(c, begun, Feed, s4, s5);
    var s6 := s5.(outputOpen := false);
    Extend(c, begun + [Feed], CloseOutput, s5, s6);
    Extend(c, begun + [Feed] + [CloseOutput], StopCollecting, s6, s6.(collecting := false));
    steps := begun + [Feed] + [CloseOutput] + [StopCollecting];
  }

  lemma Extend(c: Config, steps: seq<Step>, step: Step, s: State, t: State)
    requires IsRun(c, steps) && After(c, steps) == s
    requires Enabled(c, s, step) && Apply(c, s, step) == t
    ensures IsRun(c, steps + [step]) && After(c, steps + [step]) == t
  {
    assert (steps + [step])[..|steps|] == steps;
  }

  /* ---------- Every run ends ---------- */

  function Effort(w: Worker): nat {
    match w
    case Left => 0
    case Draining => 1
    case Idle => 2
    case Sending(_, _) => 5
    case Holding(_) => 6
  }

  function Efforts(workers: seq<Worker>): nat {
    if workers == [] then 0 else Efforts(workers[..|workers| - 1]) + Effort(workers[|workers| - 1])
  }

  lemma {:induction false} EffortsUpdate(workers: seq<Worker>, w: nat, x: Worker)
    requires w < |workers|
    ensures Efforts(workers[w := x]) + Effort(workers[w]) == Efforts(workers) + Effort(x)
  {
    var last := |workers| - 1;
    if w == last {
      assert workers[w := x][..last] == workers[..last];
    } else {
      assert workers[w := x][..last] == workers[..last][w := x];
      EffortsUpdate(workers[..last], w, x);
    }
  }

  function One(b: bool): nat { if b then 1 else 0 }

  function WorkLeft(c: Config, s: State): nat
    requires s.next <= c.items
  {
    6 * (c.items - s.next) + 5 * |s.input| + Efforts(s.workers) + 2 * |s.output|
    + One(s.feeding) + One(s.outputOpen) + One(s.collecting) + One(!s.cancelled)
  }

  lemma WorkerWorkShrinks(c: Config, s: State, step: Step)
    requires Orderly(c, s) && Enabled(c, s, step) && (step.Take? || step.Check? || step.Send? || step.Leave?)
    ensures WorkLeft(c, Apply(c, s, step)) < WorkLeft(c, s)
  {
    var t := Apply(c, s, step);
    EffortsUpdate(s.workers, step.w, t.workers[step.w]);
  }

  lemma WorkShrinks(c: Config, s: State, step: Step)
    requires Orderly(c, s) && Enabled(c, s, step)
    ensures Apply(c, s, step).next <= c.items
    ensures WorkLeft(c, Apply(c, s, step)) < WorkLeft(c, s)
  {
    if step.Take? || step.Check? || step.Send? || step.Leave? {
      WorkerWorkShrinks(c, s, step);
    }
  }

  lemma {:induction false} IdleEfforts(n: nat)
    ensures Efforts(seq(n, _ => Idle)) == 2 * n
  {
    if n > 0 {
      assert seq(n, _ => Idle)[..n - 1] == seq(n - 1, _ => Idle);
      IdleEfforts(n - 1);
    } else {
      assert seq(0, _ => Idle) == [];
    }
  }

  lemma {:induction false} RunSpendsWork(c: Config, steps: seq<Step>)
    requires ValidConfig(c) && IsRun(c, steps)
    ensures After(c, steps).next <= c.items
    ensures |steps| + WorkLeft(c, After(c, steps)) <= 6 * c.items + 2 * c.workers + 4
    decreases |steps|
  {
    if steps == [] {
      IdleEfforts(c.workers);
    } else {
      RunSpendsWork(c, steps[..|steps| - 1]);
      InvariantHolds(c, steps[..|steps| - 1]);
      WorkShrinks(c, After(c, steps[..|steps| - 1]), steps[|steps| - 1]);
    }
  }

  /** Whatever the scheduler does, the call returns: a run has boundedly many steps, and one that
      cannot be extended has finished with both channels closed and every goroutine gone. */
  lemma EveryRunFinishes(c: Config, steps: seq<Step>)
    requires ValidConfig(c) && IsRun(c, steps)
    requires c.feederWatches || c.workersDrain
    ensures |steps| <= 6 * c.items + 2 * c.workers + 4
    ensures (forall step :: Enabled(c, After(c, steps), step) ==> step.Cancel?) ==>
              Finished(After(c, steps)) && AllLeft(After(c, steps).workers) && !After(c, steps).outputOpen
  {
    RunSpendsWork(c, steps);
    InvariantHolds(c, steps);
    NeverStuck(c, steps);
  }

  /* ---------- What is collected ---------- */

  /** If the context is still live after collection, the collected outputs are each item exactly
      once, all of them really computed. */
  lemma CollectedExactlyOnce(c: Config, steps: seq<Step>)
    requires ValidConfig(c) && IsRun(c, steps)
    requires Finished(After(c, steps)) && !After(c, steps).cancelled
    ensures forall item: nat :: Occurrences(Indices(After(c, steps).collected), item) == One(item < c.items)
    ensures AllComputed(After(c, steps).collected)
  {
    var s := After(c, steps);
    InvariantHolds(c, steps);
    assert s.workers[0].Left?;
    forall item: nat ensures Occurrences(Indices(s.collected), item) == One(item < c.items) {
      EmptyHands(s.workers, item);
      assert Indices(s.output) == [];
      assert Copies(s, item) == One(item < c.items);
    }
  }

  /** Even a cancelled run never delivers an item twice, nor one that was not fed. */
  lemma NeverCollectedTwice(c: Config, steps: seq<Step>, item: nat)
    requires ValidConfig(c) && IsRun(c, steps)
    ensures Occurrences(Indices(After(c, steps).collected), item) <= One(item < c.items)
  {
    InvariantHolds(c, steps);
    assert Copies(After(c, steps), item) == One(item < After(c, steps).next);
  }
}
