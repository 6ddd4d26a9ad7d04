/**
 One worker's Run with its pool (`internal/scheduler/worker.go`) as a transition system: the
 main goroutine recovers, ticks and shuts down; `size` pool goroutines take tasks off the
 channel; one wait group counts the tasks of a tick, another the goroutines of the pool.
 */
module WorkerPools {

  const CHANNEL_CAPACITY: nat := 256

  /** The pool size a worker is made with. */
  const POOL_SIZE: nat := 8

  /** Where Run is.  `Sending` is between the wait group's Add and the end of the send. */
  datatype Main =
    | Recovering
    | BetweenTicks
    | InTick
    | Sending(task: nat)
    | AtBarrier
    | Leaving
    | Draining
    | Returned

  datatype Routine = Ready | Busy(task: nat) | Gone

  /** `begun` and `finished` record which tasks were ever counted in, and counted out again. */
  datatype Pool = Pool(
    main: Main,
    queue: seq<nat>,
    closed: bool,
    routines: seq<Routine>,
    tickCount: int,
    poolCount: int,
    begun: set<nat>,
    finished: set<nat>,
    panicked: bool)

  datatype Event =
    | RecoveryFails
    | Launch(size: nat)
    | BeginTick
    | Add(task: nat)
    | Send
    | AbortTick
    | ReachBarrier
    | PassBarrier
    | LeaveLoop
    | Close
    | Return
    | Receive(routine: nat)
    | Finish(routine: nat)
    | Quit(routine: nat)

  const START := Pool(Recovering, [], false, [], 0, 0, {}, {}, false)

  /** What can happen next.  A full channel blocks the sender; a receiver that finds the channel
      closed and empty leaves its loop; the waits end when their counters are zero. */
  predicate Enabled(p: Pool, event: Event) {
    match event
    case RecoveryFails => p.main.Recovering?
    case Launch(_) => p.main.Recovering?
    case BeginTick => p.main.BetweenTicks?
    case Add(_) => p.main.InTick?
    case Send => p.main.Sending? && (p.closed || |p.queue| < CHANNEL_CAPACITY)
    case AbortTick => p.main.InTick?
    case ReachBarrier => p.main.InTick?
    case PassBarrier => p.main.AtBarrier? && p.tickCount == 0
    case LeaveLoop => p.main.BetweenTicks?
    case Close => p.main.Leaving?
    case Return => p.main.Draining? && p.poolCount == 0
    case Receive(i) => i < |p.routines| && p.routines[i].Ready? && p.queue != []
    case Finish(i) => i < |p.routines| && p.routines[i].Busy?
    case Quit(i) => i < |p.routines| && p.routines[i].Ready? && p.closed && p.queue == []
  }

  /** Sending on a closed channel, closing it twice and a negative counter all panic. */
  function Perform(p: Pool, event: Event): Pool
    requires Enabled(p, event)
  {
    match event
    case RecoveryFails => p.(main := Returned)
    case Launch(size) => p.(main := BetweenTicks, routines := seq(size, _ => Ready), poolCount := p.poolCount + size)
    case BeginTick => p.(main := InTick)
    case Add(t) => p.(main := Sending(t), tickCount := p.tickCount + 1, begun := p.begun + {t},
                      finished := p.finished - {t})
    case Send => p.(main := InTick, queue := p.queue + [p.main.task], panicked := p.panicked || p.closed)
    case AbortTick => p.(main := Leaving)
    case ReachBarrier => p.(main := AtBarrier)
    case PassBarrier => p.(main := BetweenTicks)
    case LeaveLoop => p.(main := Leaving)
    case Close => p.(main := Draining, closed := true, panicked := p.panicked || p.closed)
    case Return => p.(main := Returned)
    case Receive(i) => p.(routines := p.routines[i := Busy(p.queue[0])], queue := p.queue[1..])
    case Finish(i) =>
      p.(routines := p.routines[i := Ready], tickCount := p.tickCount - 1,
         finished := p.finished + {p.routines[i].task},
         panicked := p.panicked || p.tickCount == 0)
    case Quit(i) => p.(routines := p.routines[i := Gone], poolCount := p.poolCount - 1,
                       panicked := p.panicked || p.poolCount == 0)
  }

  function Next(p: Pool, event: Event): Pool {
    if Enabled(p, event) then Perform(p, event) else p
  }

  function RunFrom(p: Pool, events: seq<Event>): Pool {
    if events == [] then p else Next(RunFrom(p, events[..|events| - 1]), events[|events| - 1])
  }

  // ------------------------------------------------------------------ counting

  function BusyCount(routines: seq<Routine>): nat {
    if routines == [] then 0 else (if routines[0].Busy? then 1 else 0) + BusyCount(routines[1..])
  }

  function LiveCount(routines: seq<Routine>): nat {
    if routines == [] then 0 else (if routines[0].Gone? then 0 else 1) + LiveCount(routines[1..])
  }

  lemma {:induction false} CountsAfter(routines: seq<Routine>, i: nat, r: Routine)
    requires i < |routines|
    ensures var before := routines[i];
            && BusyCount(routines[i := r]) - BusyCount(routines)
               == (if r.Busy? then 1 else 0) - (if before.Busy? then 1 else 0)
            && LiveCount(routines[i := r]) - LiveCount(routines)
               == (if r.Gone? then 0 else 1) - (if before.Gone? then 0 else 1)
  {
    if i == 0 {
      assert routines[i := r][1..] == routines[1..];
    } else {
      CountsAfter(routines[1..], i - 1, r);
      assert routines[i := r][1..] == routines[1..][i - 1 := r];
    }
  }

  lemma {:induction false} CountsAtLaunch(size: nat)
    ensures BusyCount(seq(size, _ => Ready)) == 0 && LiveCount(seq(size, _ => Ready)) == size
  {
    var routines := seq(size, _ => Ready);
    if size > 0 {
      CountsAtLaunch(size - 1);
      assert routines[1..] == seq(size - 1, _ => Ready);
    }
  }

  lemma {:induction false} CountsCover(routines: seq<Routine>, i: nat)
    requires i < |routines|
    ensures routines[i].Busy? ==> BusyCount(routines) > 0
    ensures !routines[i].Gone? ==> LiveCount(routines) > 0
  {
    if i > 0 {
      CountsCover(routines[1..], i - 1);
    }
  }

  // ------------------------------------------------------------------ the invariant

  predicate IsBusyWith(routines: seq<Routine>, t: nat) {
    exists i :: 0 <= i < |routines| && routines[i] == Busy(t)
  }

  /** The task is being sent, waits in the channel, or runs. */
  predicate Holds(p: Pool, t: nat) {
    p.main == Sending(t) || t in p.queue || IsBusyWith(p.routines, t)
  }

  /** The wait groups count what they are meant to count. */
  ghost predicate CountersFit(p: Pool) {
    && p.tickCount == |p.queue| + BusyCount(p.routines) + (if p.main.Sending? then 1 else 0)
    && p.poolCount == LiveCount(p.routines)
    && !p.panicked
  }

  /** The channel is closed once the loop has been left; nothing waits between ticks; a goroutine
      leaves only an empty, closed channel; where recovery failed there is no pool at all. */
  ghost predicate PhasesFit(p: Pool) {
    && (p.main.Recovering? ==> p.routines == [] && p.queue == [])
    && (p.main.BetweenTicks? ==> p.tickCount == 0)
    && (p.closed <==> p.main.Draining? || (p.main.Returned? && p.closed))
    && (p.main.Returned? ==> p.poolCount == 0 && (p.closed || (p.routines == [] && p.queue == [])))
    && (forall i :: 0 <= i < |p.routines| && p.routines[i].Gone? ==> p.closed && p.queue == [])
  }

  /** A task counted in and not yet counted out is held somewhere. */
  ghost predicate TasksHeld(p: Pool) {
    forall t :: t in p.begun && t !in p.finished ==> Holds(p, t)
  }

  ghost predicate Fits(p: Pool) { CountersFit(p) && PhasesFit(p) && TasksHeld(p) }

  lemma CountersKept(p: Pool, event: Event)
    requires CountersFit(p) && PhasesFit(p) && Enabled(p, event)
    ensures CountersFit(Perform(p, event))
  {
    match event
    case Launch(size) => CountsAtLaunch(size);
    case Receive(i) => CountsAfter(p.routines, i, Busy(p.queue[0]));
    case Finish(i) => CountsAfter(p.routines, i, Ready); CountsCover(p.routines, i);
    case Quit(i) => CountsAfter(p.routines, i, Gone); CountsCover(p.routines, i);
    case _ =>
  }

  lemma PhasesKept(p: Pool, event: Event)
    requires CountersFit(p) && PhasesFit(p) && Enabled(p, event)
    ensures PhasesFit(Perform(p, event))
  {
    match event
    case Receive(i) => CountsCover(p.routines, i);
    case Finish(i) => CountsCover(p.routines, i);
    case Quit(i) => CountsCover(p.routines, i);
    case _ =>
  }

  /** What a step lets go of, it finishes. */
  lemma HoldsUnlessFinished(p: Pool, event: Event, t: nat)
    requires PhasesFit(p) && Enabled(p, event) && Holds(p, t)
    ensures Holds(Perform(p, event), t) || (event.Finish? && p.routines[event.routine] == Busy(t))
  {
    var next := Perform(p, event);
    if i :| 0 <= i < |p.routines| && p.routines[i] == Busy(t) {
      assert event == Finish(i) || next.routines[i] == Busy(t);
    } else if t in p.queue {
      match event
      case Receive(i) => assert next.routines[i] == Busy(p.queue[0]); assert p.queue == [p.queue[0]] + p.queue[1..];
      case _ =>
    }
  }

  lemma TasksKept(p: Pool, event: Event)
    requires PhasesFit(p) && TasksHeld(p) && Enabled(p, event)
    ensures TasksHeld(Perform(p, event))
  {
    var next := Perform(p, event);
    forall t | t in next.begun && t !in next.finished
      ensures Holds(next, t)
    {
      if t in p.begun && t !in p.finished {
        HoldsUnlessFinished(p, event, t);
      }
    }
  }

  // ------------------------------------------------------------------ over every interleaving

  lemma {:induction false} EveryRunFits(events: seq<Event>)
    ensures Fits(RunFrom(START, events))
  {
    if events != [] {
      var p, event := RunFrom(START, events[..|events| - 1]), events[|events| - 1];
      EveryRunFits(events[..|events| - 1]);
      if Enabled(p, event) {
        CountersKept(p, event);
        PhasesKept(p, event);
        TasksKept(p, event);
      }
    }
  }

  /** Nothing is being sent, queued or run, and every task ever counted in has been counted out. */
  ghost predicate Quiet(p: Pool) {
    p.queue == [] && (forall i :: 0 <= i < |p.routines| ==> !p.routines[i].Busy?) && !p.main.Sending?
        && p.begun <= p.finished
  }

  lemma NothingCountedIsQuiet(p: Pool)
    requires Fits(p) && p.tickCount == 0
    ensures Quiet(p)
  {
    forall i | 0 <= i < |p.routines|
      ensures !p.routines[i].Busy?
    {
      CountsCover(p.routines, i);
    }
    forall t | t in p.begun
      ensures t in p.finished
    {
      assert !IsBusyWith(p.routines, t);
    }
  }

  /** No send follows the close, the channel is closed once, no counter goes below zero. */
  lemma NeverPanics(events: seq<Event>)
    ensures !RunFrom(START, events).panicked
  {
    EveryRunFits(events);
  }

  /** A tick begins only when every task of every earlier tick has ended, also after ticks that
      found their context canceled, since no other tick follows those. */
  lemma TickBeginsQuiet(events: seq<Event>)
    requires Enabled(RunFrom(START, events), BeginTick)
    ensures Quiet(RunFrom(START, events))
  {
    EveryRunFits(events);
    NothingCountedIsQuiet(RunFrom(START, events));
  }

  /** The pool was launched with at least one goroutine. */
  predicate Manned(p: Pool) { p.main.Recovering? || !p.closed || p.routines != [] }

  /** Run has returned: after a failed recovery, or with the pool drained. */
  lemma ReturnedIsQuiet(p: Pool)
    requires Fits(p) && p.main.Returned? && Manned(p)
    ensures Quiet(p)
  {
    forall i | 0 <= i < |p.routines|
      ensures p.routines[i].Gone?
    {
      CountsCover(p.routines, i);
    }
    if p.closed {
      assert p.routines[0].Gone?;
    }
    NoneBusy(p.routines);
    NothingCountedIsQuiet(p);
  }

  /** Where the wait for the pool ends, nothing is left. */
  lemma DrainedIsQuiet(p: Pool, size: nat)
    requires size > 0 && Fits(p) && HasSize(p, size) && Enabled(p, Return)
    ensures Quiet(p)
  {
    PhasesKept(p, Return);
    ReturnedIsQuiet(Perform(p, Return));
  }

  lemma {:induction false} NoneBusy(routines: seq<Routine>)
    requires forall i :: 0 <= i < |routines| ==> routines[i].Gone?
    ensures BusyCount(routines) == 0
  {
    if routines != [] {
      NoneBusy(routines[1..]);
    }
  }

  /** Launched with `size` goroutines, if launched at all. */
  predicate HasSize(p: Pool, size: nat) {
    (p.closed || (!p.main.Recovering? && !p.main.Returned?)) ==> |p.routines| == size
  }

  lemma RoutinesKept(p: Pool, event: Event, size: nat)
    requires PhasesFit(p) && HasSize(p, size) && (event.Launch? ==> event.size == size)
    ensures HasSize(Next(p, event), size)
  {
  }

  lemma {:induction false} RoutinesStay(events: seq<Event>, size: nat)
    requires forall i :: 0 <= i < |events| && events[i].Launch? ==> events[i].size == size
    ensures HasSize(RunFrom(START, events), size)
  {
    if events != [] {
      RoutinesStay(events[..|events| - 1], size);
      EveryRunFits(events[..|events| - 1]);
      RoutinesKept(RunFrom(START, events[..|events| - 1]), events[|events| - 1], size);
    }
  }

  /** In every interleaving, Run returns only when no task is queued or running and every task it
      was ever given has ended: early out of a tick, out of the loop, or with recovery failed. */
  lemma RunReturnsQuiet(events: seq<Event>, size: nat)
    requires size > 0 && forall i :: 0 <= i < |events| && events[i].Launch? ==> events[i].size == size
    requires RunFrom(START, events).main.Returned?
    ensures Quiet(RunFrom(START, events))
  {
    EveryRunFits(events);
    RoutinesStay(events, size);
    ReturnedIsQuiet(RunFrom(START, events));
  }

  /** One more event after a run that has reached `p`. */
  lemma Then(events: seq<Event>, p: Pool, event: Event) returns (longer: seq<Event>)
    requires RunFrom(START, events) == p
    ensures longer == events + [event] && RunFrom(START, longer) == Next(p, event)
  {
    longer := events + [event];
    assert longer[..|events|] == events;
  }

  lemma UnmannedPoolSends() returns (events: seq<Event>)
    ensures forall i :: 0 <= i < |events| && events[i].Launch? ==> events[i].size == 0
    ensures RunFrom(START, events) == Pool(InTick, [7], false, [], 1, 0, {7}, {}, false)
  {
    events := Then([], START, Launch(0));
    events := Then(events, START.(main := BetweenTicks), BeginTick);
    events := Then(events, START.(main := InTick), Add(7));
    events := Then(events, Pool(Sending(7), [], false, [], 1, 0, {7}, {}, false), Send);
  }

  /** With a pool of size 0 that fails: Run returns with its first task still in the channel. */
  lemma UnmannedPoolLosesTasks() returns (events: seq<Event>)
    ensures forall i :: 0 <= i < |events| && events[i].Launch? ==> events[i].size == 0
    ensures var p := RunFrom(START, events); p.main.Returned? && p.queue == [7] && 7 in p.begun - p.finished
  {
    events := UnmannedPoolSends();
    var p := Pool(InTick, [7], false, [], 1, 0, {7}, {}, false);
    events := Then(events, p, AbortTick);
    events := Then(events, p.(main := Leaving), Close);
    events := Then(events, p.(main := Draining, closed := true), Return);
  }

  // ------------------------------------------------------------------ no deadlock

  lemma {:induction false} SomeBusy(routines: seq<Routine>) returns (i: nat)
    requires BusyCount(routines) > 0
    ensures i < |routines| && routines[i].Busy?
  {
    i := 0;
    if !routines[0].Busy? {
      i := SomeBusy(routines[1..]);
      i := i + 1;
    }
  }

  lemma {:induction false} SomeLive(routines: seq<Routine>) returns (i: nat)
    requires LiveCount(routines) > 0
    ensures i < |routines| && !routines[i].Gone?
  {
    i := 0;
    if routines[0].Gone? {
      i := SomeLive(routines[1..]);
      i := i + 1;
    }
  }

  /** Run waits: for room in the channel, at the barrier, or for the pool. */
  predicate Blocked(p: Pool) {
    || (p.main.Sending? && !Enabled(p, Send))
    || (p.main.AtBarrier? && !Enabled(p, PassBarrier))
    || (p.main.Draining? && !Enabled(p, Return))
  }

  predicate IsPoolMove(event: Event) { event.Receive? || event.Finish? || event.Quit? }

  /** What a goroutine that is not gone can do. */
  function MoveOf(p: Pool, i: nat): Event
    requires i < |p.routines|
  {
    if p.routines[i].Busy? then Finish(i) else if p.queue != [] then Receive(i) else Quit(i)
  }

  /** In every interleaving, wherever Run waits, some goroutine of the pool can move. */
  lemma NeverStuck(events: seq<Event>, size: nat) returns (event: Event)
    requires size > 0 && forall i :: 0 <= i < |events| && events[i].Launch? ==> events[i].size == size
    requires Blocked(RunFrom(START, events))
    ensures IsPoolMove(event) && Enabled(RunFrom(START, events), event)
  {
    var p := RunFrom(START, events);
    EveryRunFits(events);
    RoutinesStay(events, size);
    var i := 0;
    if p.main.AtBarrier? && BusyCount(p.routines) > 0 {
      i := SomeBusy(p.routines);
    } else if p.main.Draining? {
      i := SomeLive(p.routines);
    }
    event := MoveOf(p, i);
  }

  /** What the pool has left to do before it is idle. */
  function PoolWork(p: Pool): nat { 2 * |p.queue| + BusyCount(p.routines) + LiveCount(p.routines) }

  /** And each of its moves works something off while Run waits, so that it waits only as long as
      tasks take. */
  lemma MovesWorkOff(p: Pool, event: Event)
    requires Enabled(p, event) && IsPoolMove(event)
    ensures PoolWork(Perform(p, event)) < PoolWork(p) && Perform(p, event).main == p.main
  {
    var i := event.routine;
    CountsAfter(p.routines, i, Perform(p, event).routines[i]);
  }
}
