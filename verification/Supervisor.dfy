/**
 The supervisor's event loop (`internal/scheduler/supervisor.go`): it starts a worker when its
 node becomes leader, and cancels it and waits for its Run when leadership is lost or the process
 shuts down.  Workers move on their own, as `WorkerPools` lets them, also while nobody waits.
 */
module Supervisors {
  import Pools = WorkerPools

  /** What happens to workers, in order. */
  datatype Action =
    | Started(worker: nat)
    | Moved(worker: nat, event: Pools.Event)
    | Canceled(worker: nat)
    | Joined(worker: nat)

  /** What the loop can meet: a notification or the end of the context where it selects, the end
      of its wait, or a move of some worker at any time. */
  datatype Input =
    | Notify(isLeader: bool)
    | Shutdown
    | WaitEnds
    | WorkerMoves(worker: nat, event: Pools.Event)

  // ------------------------------------------------------------------ reading a trace

  function Starts(trace: seq<Action>): nat {
    if trace == [] then 0 else Starts(trace[..|trace| - 1]) + if trace[|trace| - 1].Started? then 1 else 0
  }

  function Unjoined(trace: seq<Action>): set<nat> {
    if trace == [] then {}
    else
      var before := Unjoined(trace[..|trace| - 1]);
      match trace[|trace| - 1]
      case Started(w) => before + {w}
      case Joined(w) => before - {w}
      case _ => before
  }

  /** Where a worker's Run and its pool have got to. */
  function PoolAt(trace: seq<Action>, w: nat): Pools.Pool {
    if trace == [] then Pools.START
    else
      var before := PoolAt(trace[..|trace| - 1], w);
      match trace[|trace| - 1]
      case Moved(v, e) => if v == w then Pools.Next(before, e) else before
      case _ => before
  }

  predicate Returned(trace: seq<Action>, w: nat) { PoolAt(trace, w).main.Returned? }

  predicate Alive(trace: seq<Action>, w: nat) { w < Starts(trace) && !Returned(trace, w) }

  /** What the loop's own guards make of a trace: it starts a worker only when it holds none, and
      a wait ends only when the Run it waits for has returned.  Nothing is said of tasks. */
  ghost predicate Legal(trace: seq<Action>) {
    trace == [] || (Legal(trace[..|trace| - 1]) && LegalStep(trace[..|trace| - 1], trace[|trace| - 1]))
  }

  ghost predicate LegalStep(before: seq<Action>, a: Action) {
    match a
    case Started(w) => w == Starts(before) && Unjoined(before) == {}
    case Moved(w, e) => w < Starts(before) && Pools.Enabled(PoolAt(before, w), e)
        && (e.Launch? ==> e.size == Pools.POOL_SIZE)
    case Canceled(w) => Unjoined(before) == {w}
    case Joined(w) => Unjoined(before) == {w} && Returned(before, w)
  }

  lemma {:induction false} PoolsFit(trace: seq<Action>, w: nat)
    requires Legal(trace)
    ensures Pools.Fits(PoolAt(trace, w)) && Pools.HasSize(PoolAt(trace, w), Pools.POOL_SIZE)
  {
    if trace == [] {
      Pools.EveryRunFits([]);
    } else {
      var before, last := trace[..|trace| - 1], trace[|trace| - 1];
      PoolsFit(before, w);
      if last.Moved? && last.worker == w {
        Pools.CountersKept(PoolAt(before, w), last.event);
        Pools.PhasesKept(PoolAt(before, w), last.event);
        Pools.TasksKept(PoolAt(before, w), last.event);
        Pools.RoutinesKept(PoolAt(before, w), last.event, Pools.POOL_SIZE);
      }
    }
  }

  /** Only the last worker started can be unjoined, and whoever is joined has returned. */
  lemma {:induction false} JoinedHaveReturned(trace: seq<Action>, w: nat)
    requires Legal(trace)
    ensures w in Unjoined(trace) ==> w + 1 == Starts(trace)
    ensures w < Starts(trace) && w !in Unjoined(trace) ==> Returned(trace, w)
  {
    if trace != [] {
      var before, last := trace[..|trace| - 1], trace[|trace| - 1];
      JoinedHaveReturned(before, w);
    }
  }

  /** At most one worker's Run has not returned. */
  lemma AtMostOneAlive(trace: seq<Action>, v: nat, w: nat)
    requires Legal(trace) && Alive(trace, v) && Alive(trace, w)
    ensures v == w
  {
    JoinedHaveReturned(trace, v);
    JoinedHaveReturned(trace, w);
  }

  lemma {:induction false} LegalAt(trace: seq<Action>, n: nat)
    requires Legal(trace) && n < |trace|
    ensures Legal(trace[..n]) && LegalStep(trace[..n], trace[n])
  {
    if n < |trace| - 1 {
      LegalAt(trace[..|trace| - 1], n);
      assert trace[..|trace| - 1][..n] == trace[..n];
    }
  }

  /** Before the next worker starts, each earlier one has been joined, its Run has returned, and
      every task it was ever given has ended. */
  lemma JoinedBeforeNext(trace: seq<Action>, i: nat, j: nat)
    requires Legal(trace) && i < j < |trace| && trace[i].Started? && trace[j].Started?
    ensures exists n :: i < n < j && trace[n] == Joined(trace[i].worker)
    ensures var p := PoolAt(trace[..j], trace[i].worker); p.main.Returned? && Pools.Quiet(p)
  {
    var w := trace[i].worker;
    LegalAt(trace, j);
    LegalAt(trace, i);
    JoinedBetween(trace, i, j);
    StartsGrow(trace, i, j);
    JoinedHaveReturned(trace[..j], w);
    PoolsFit(trace[..j], w);
    Pools.ReturnedIsQuiet(PoolAt(trace[..j], w));
  }

  lemma {:induction false} StartsGrow(trace: seq<Action>, i: nat, j: nat)
    requires Legal(trace) && i < j <= |trace| && trace[i].Started?
    ensures trace[i].worker < Starts(trace[..j])
  {
    assert trace[..j][..j - 1] == trace[..j - 1];
    if i == j - 1 {
      LegalAt(trace, i);
    } else {
      StartsGrow(trace, i, j - 1);
    }
  }

  lemma {:induction false} JoinedBetween(trace: seq<Action>, i: nat, j: nat)
    requires i < j <= |trace| && trace[i].Started? && trace[i].worker !in Unjoined(trace[..j])
    ensures exists n :: i < n < j && trace[n] == Joined(trace[i].worker)
  {
    var last := trace[j - 1];
    assert trace[..j][..j - 1] == trace[..j - 1];
    if i < j - 1 && last != Joined(trace[i].worker) {
      JoinedBetween(trace, i, j - 1);
    }
  }

  // ------------------------------------------------------------------ the supervisor

  /** The number of notifications that turn leadership on. */
  function RisingEdges(notified: seq<bool>): nat {
    if notified == [] then 0
    else
      var n := |notified| - 1;
      RisingEdges(notified[..n]) + if notified[n] && !Last(notified[..n]) then 1 else 0
  }

  function Last(notified: seq<bool>): bool { notified != [] && notified[|notified| - 1] }

  /** The supervisor's fields say what its trace says. */
  ghost predicate Describes(trace: seq<Action>, started: nat, cancel: bool, running: int) {
    && Legal(trace) && Starts(trace) == started && (cancel ==> started > 0)
    && Unjoined(trace) == (if cancel then {started - 1} else {})
    && running == (if cancel && !Returned(trace, started - 1) then 1 else 0)
  }

  lemma Appended(trace: seq<Action>, a: Action)
    ensures (trace + [a])[..|trace|] == trace
  {
  }

  lemma DescribesStart(trace: seq<Action>, started: nat)
    requires Describes(trace, started, false, 0)
    ensures Describes(trace + [Started(started)], started + 1, true, 1)
  {
    Appended(trace, Started(started));
    NotYetStarted(trace, started);
  }

  /** A worker that has not been started has not moved. */
  lemma {:induction false} NotYetStarted(trace: seq<Action>, w: nat)
    requires Legal(trace) && Starts(trace) <= w
    ensures PoolAt(trace, w) == Pools.START
  {
    if trace != [] {
      NotYetStarted(trace[..|trace| - 1], w);
    }
  }

  lemma DescribesMove(trace: seq<Action>, started: nat, cancel: bool, running: int, w: nat, e: Pools.Event)
    requires Describes(trace, started, cancel, running) && LegalStep(trace, Moved(w, e))
    ensures var done := !Returned(trace, w) && Returned(trace + [Moved(w, e)], w);
            Describes(trace + [Moved(w, e)], started, cancel, if done then running - 1 else running)
  {
    Appended(trace, Moved(w, e));
    JoinedHaveReturned(trace, w);
  }

  lemma DescribesCancel(trace: seq<Action>, started: nat, running: int)
    requires Describes(trace, started, true, running)
    ensures Describes(trace + [Canceled(started - 1)], started, true, running)
  {
    Appended(trace, Canceled(started - 1));
  }

  lemma DescribesJoin(trace: seq<Action>, started: nat)
    requires Describes(trace, started, true, 0)
    ensures Describes(trace + [Joined(started - 1)], started, false, 0)
  {
    Appended(trace, Joined(started - 1));
  }

  class Supervisor {
    /** Set from a worker's start until it has been joined. */
    var cancel: bool
    /** In the wait group's Wait: for a stop, or for good. */
    var waiting: bool
    var leaving: bool
    var returned: bool
    /** The wait group: Runs that have not returned. */
    var running: int
    var started: nat
    var trace: seq<Action>
    /** The notifications taken from the channel. */
    ghost var notified: seq<bool>

    ghost predicate Valid()
      reads this
    {
      && Describes(trace, started, cancel, running)
      && (waiting ==> cancel && !returned) && (leaving ==> waiting) && (returned ==> !cancel)
      && started == RisingEdges(notified) && (!waiting && !returned ==> cancel == Last(notified))
      && (waiting && !leaving ==> !Last(notified))
    }

    constructor ()
      ensures Valid() && trace == [] && notified == [] && !waiting && !returned
    {
      cancel, waiting, leaving, returned, running, started, trace := false, false, false, false, 0, 0, [];
      notified := [];
    }

    method StartWorker()
      requires Describes(trace, started, cancel, running)
      modifies this`cancel, this`running, this`started, this`trace
      ensures Describes(trace, started, cancel, running) && cancel
      ensures if old(cancel) then trace == old(trace) else trace == old(trace) + [Started(old(started))]
      ensures started == old(started) + if old(cancel) then 0 else 1
    {
      if cancel {
        return;
      }
      DescribesStart(trace, started);
      trace := trace + [Started(started)];
      cancel, running, started := true, running + 1, started + 1;
    }

    /** Up to the wait: the worker's context is canceled. */
    method StopWorker()
      requires Describes(trace, started, cancel, running) && !waiting
      modifies this`trace, this`waiting
      ensures Describes(trace, started, cancel, running) && waiting == cancel
      ensures trace == old(trace) + if cancel then [Canceled(started - 1)] else []
    {
      if !cancel {
        return;
      }
      DescribesCancel(trace, started, running);
      trace := trace + [Canceled(started - 1)];
      waiting := true;
    }

    /** A notification taken where the loop selects; a redundant one does nothing at all. */
    method LeaderStep(isLeader: bool)
      requires Valid() && !waiting && !returned
      modifies this
      ensures Valid() && !returned && notified == old(notified) + [isLeader]
      ensures isLeader == old(cancel) ==> trace == old(trace) && !waiting
      ensures isLeader && !old(cancel) ==> trace == old(trace) + [Started(old(started))] && !waiting
      ensures !isLeader && old(cancel) ==> trace == old(trace) + [Canceled(started - 1)] && waiting
    {
      ghost var before := notified;
      notified := notified + [isLeader];
      assert notified[..|before|] == before;
      if isLeader {
        StartWorker();
      } else {
        StopWorker();
      }
    }

    /** The context has ended. */
    method ShutDown()
      requires Valid() && !waiting && !returned
      modifies this
      ensures Valid() && started == old(started) && notified == old(notified)
      ensures if old(cancel) then waiting && leaving else returned && trace == old(trace)
    {
      StopWorker();
      leaving, returned := waiting, !waiting;
    }

    /** The wait ends once the wait group is at zero. */
    method EndWait()
      requires Valid() && waiting && running == 0
      modifies this
      ensures Valid() && !waiting && !cancel && returned == old(leaving) && started == old(started)
              && notified == old(notified)
      ensures trace == old(trace) + [Joined(started - 1)]
    {
      DescribesJoin(trace, started);
      trace := trace + [Joined(started - 1)];
      cancel, waiting, leaving, returned := false, false, false, leaving;
    }

    /** Any worker that was ever started moves on as its Run and pool let it; when its Run returns,
        its goroutine counts itself out. */
    method MoveWorker(w: nat, e: Pools.Event)
      requires Valid() && LegalStep(trace, Moved(w, e))
      modifies this`trace, this`running
      ensures Valid() && trace == old(trace) + [Moved(w, e)]
    {
      DescribesMove(trace, started, cancel, running, w, e);
      var before := PoolAt(trace, w);
      Appended(trace, Moved(w, e));
      trace := trace + [Moved(w, e)];
      if !before.main.Returned? && Pools.Perform(before, e).main.Returned? {
        running := running - 1;
      }
    }

    /** The loop, whatever it meets in whatever order: its trace is legal, a worker has been started
        exactly at each rising edge of leadership, and once it has returned no worker is alive. */
    method Run(inputs: seq<Input>)
      requires Valid()
      modifies this
      ensures Valid() && Legal(trace) && started == RisingEdges(notified) && old(notified) <= notified
      ensures returned ==> forall w :: !Alive(trace, w)
    {
      var i := 0;
      while i < |inputs|
        invariant 0 <= i <= |inputs| && Valid() && old(notified) <= notified
      {
        match inputs[i] {
          case Notify(isLeader) => if !waiting && !returned { LeaderStep(isLeader); }
          case Shutdown => if !waiting && !returned { ShutDown(); }
          case WaitEnds => if waiting && running == 0 { EndWait(); }
          case WorkerMoves(w, e) =>
            if w < Starts(trace) && Pools.Enabled(PoolAt(trace, w), e) && (e.Launch? ==> e.size == Pools.POOL_SIZE) {
              MoveWorker(w, e);
            }
        }
        i := i + 1;
      }
      if returned {
        forall w ensures !Alive(trace, w) { JoinedHaveReturned(trace, w); }
      }
    }
  }
}
