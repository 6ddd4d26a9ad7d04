/**
 Workers, pools and the protocol together: the barrier between ticks and the join between workers
 are the wait groups of `WorkerPools`, not assumptions.  Every run of the whole is a run of the
 protocol, whose guards on tasks are thereby earned.
 */
module Clusters {
  import opened Base
  import opened Calendar
  import opened Domain
  import opened Fsm
  import opened Protocol
  import opened ProtocolTheorems
  import Pools = WorkerPools

  /** `planned` are tasks a scan has listed and the tick's loop has not yet counted in. */
  datatype Cluster = Cluster(s: State, pools: map<string, Pools.Pool>, planned: set<nat>)

  datatype Step =
    | Act(event: Event)
    | Inner(node: string, event': Pools.Event)
    | Enqueue(task: nat)
    | Skip(task: nat)

  const BEGINNING := Cluster(START, map[], {})

  // ------------------------------------------------------------------ guards

  predicate Working(c: Cluster, n: string) { n in c.pools && !c.pools[n].main.Returned? }

  predicate InTick(c: Cluster, n: string) { n in c.pools && c.pools[n].main.InTick? }

  predicate PoolAllows(c: Cluster, n: string, e: Pools.Event) { n in c.pools && Pools.Enabled(c.pools[n], e) }

  predicate NothingPlanned(c: Cluster, n: string) {
    forall i :: i in c.planned && i in c.s.tasks ==> c.s.tasks[i].node != n
  }

  /** A goroutine of the node's pool is in this task. */
  predicate IsRunning(c: Cluster, i: nat) {
    i in c.s.tasks && c.s.tasks[i].node in c.pools && Pools.IsBusyWith(c.pools[c.s.tasks[i].node].routines, i)
  }

  /** Events by which a worker's Run moves on. */
  predicate IsPaced(event: Event) {
    event.BeginRecovery? || event.RecoverFail? || event.RecoverDone? || event.BeginTick? || event.Stop? || event.Join?
  }

  /** They happen when the pool says so: nothing is asked about tasks or the protocol's own view
      of the worker. */
  predicate PaceAllows(c: Cluster, event: Event)
    requires IsPaced(event)
  {
    match event
    case BeginRecovery(n) => !Working(c, n) && Leads(c.s, n)
    case RecoverFail(n) => PoolAllows(c, n, Pools.RecoveryFails)
    case RecoverDone(n) => PoolAllows(c, n, Pools.Launch(Pools.POOL_SIZE))
    case BeginTick(n) => PoolAllows(c, n, Pools.BeginTick)
    case Stop(n) => (PoolAllows(c, n, Pools.AbortTick) && NothingPlanned(c, n)) || PoolAllows(c, n, Pools.LeaveLoop)
    case Join(n) => PoolAllows(c, n, Pools.Return)
  }

  /** The other events are the protocol's; ticks act inside a tick, tasks inside a goroutine. */
  predicate PoolAgrees(c: Cluster, event: Event) {
    match event
    case RecoverPropose(n, _) => PoolAllows(c, n, Pools.RecoveryFails)
    case ReadDue(n, _, _) => InTick(c, n)
    case TickClaim(n, _, _, i) => InTick(c, n) && i !in c.pools[n].begun
    case TickScan(n, _, _, chosen) => InTick(c, n) && chosen.Keys !! c.pools[n].begun
    case ReadSchedule(i) => IsRunning(c, i)
    case Respond(i, _, _, _, _, _, _) => IsRunning(c, i)
    case ProposeRecord(i, _) => IsRunning(c, i)
    case ReadAttempts(i) => IsRunning(c, i)
    case ProposeComplete(i, _) => IsRunning(c, i)
    case TaskEnds(i) => IsRunning(c, i)
    case _ => true
  }

  ghost predicate ActAllowed(c: Cluster, event: Event) {
    if IsPaced(event) then PaceAllows(c, event) else Enabled(c.s, event) && PoolAgrees(c, event)
  }

  /** The pool's own moves; a goroutine is done with a task when the task's run has returned. */
  predicate InnerAllowed(c: Cluster, n: string, e: Pools.Event) {
    && PoolAllows(c, n, e)
    && match e
       case Send => true
       case ReachBarrier => NothingPlanned(c, n)
       case PassBarrier => true
       case Close => true
       case Receive(_) => true
       case Finish(i) => c.pools[n].routines[i].task !in c.s.tasks
       case Quit(_) => true
       case _ => false
  }

  ghost predicate Allowed(c: Cluster, step: Step) {
    match step
    case Act(event) => ActAllowed(c, event)
    case Inner(n, e) => InnerAllowed(c, n, e)
    case Enqueue(i) => i in c.planned && i in c.s.tasks && InTick(c, c.s.tasks[i].node)
    case Skip(i) => i in c.planned && i in c.s.tasks
  }

  // ------------------------------------------------------------------ effects

  function Moved(c: Cluster, n: string, e: Pools.Event): map<string, Pools.Pool>
    requires PoolAllows(c, n, e)
  {
    c.pools[n := Pools.Perform(c.pools[n], e)]
  }

  function PacedState(s: State, event: Event): State
    requires IsPaced(event)
  {
    match event
    case BeginRecovery(n) => SetWorker(s, n, Recovering(None))
    case RecoverFail(n) => SetWorker(s, n, Idle)
    case RecoverDone(n) => SetWorker(s, n, Running({}))
    case BeginTick(n) => SetWorker(s, n, Running({}))
    case Stop(n) => SetWorker(s, n, Stopping)
    case Join(n) => SetWorker(s, n, Idle)
  }

  function PacedPools(c: Cluster, event: Event): map<string, Pools.Pool>
    requires IsPaced(event) && PaceAllows(c, event)
  {
    match event
    case BeginRecovery(n) => c.pools[n := Pools.START]
    case RecoverFail(n) => Moved(c, n, Pools.RecoveryFails)
    case RecoverDone(n) => Moved(c, n, Pools.Launch(Pools.POOL_SIZE))
    case BeginTick(n) => Moved(c, n, Pools.BeginTick)
    case Stop(n) => if c.pools[n].main.InTick? then Moved(c, n, Pools.AbortTick) else Moved(c, n, Pools.LeaveLoop)
    case Join(n) => Moved(c, n, Pools.Return)
  }

  /** The pool's part in the protocol's other events: a claim that was accepted is counted in. */
  function OtherPools(c: Cluster, event: Event, next: State): map<string, Pools.Pool>
    requires PoolAgrees(c, event)
  {
    match event
    case Crash(n) => c.pools - {n}
    case RecoverPropose(n, fate) => if fate.Committed? then c.pools else Moved(c, n, Pools.RecoveryFails)
    case TickClaim(n, _, _, i) => if i in next.tasks then Moved(c, n, Pools.Add(i)) else c.pools
    case _ => c.pools
  }

  ghost function Acted(rules: Rules, c: Cluster, event: Event): Cluster
    requires ActAllowed(c, event)
  {
    if IsPaced(event) then Cluster(PacedState(c.s, event), PacedPools(c, event), c.planned)
    else
      var next := Perform(rules, c.s, event);
      Cluster(next, OtherPools(c, event, next), PlannedAfter(c, event))
  }

  ghost function PlannedAfter(c: Cluster, event: Event): set<nat> {
    match event
    case TickScan(_, _, _, chosen) => c.planned + chosen.Keys
    case _ => c.planned
  }

  ghost function After(rules: Rules, c: Cluster, step: Step): Cluster
    requires Allowed(c, step)
  {
    match step
    case Act(event) => Acted(rules, c, event)
    case Inner(n, e) => c.(pools := Moved(c, n, e))
    case Enqueue(i) => c.(pools := Moved(c, c.s.tasks[i].node, Pools.Add(i)), planned := c.planned - {i})
    case Skip(i) => c.(s := EndTask(c.s, i), planned := c.planned - {i})
  }

  ghost function Run(rules: Rules, steps: seq<Step>): Cluster {
    if steps == [] then BEGINNING
    else
      var c, step := Run(rules, steps[..|steps| - 1]), steps[|steps| - 1];
      if Allowed(c, step) then After(rules, c, step) else c
  }

  // ------------------------------------------------------------------ what links pools and protocol

  /** The worker's state is where its Run is. */
  ghost predicate WorkerMatches(c: Cluster, n: string) {
    var w := WorkerOf(c.s, n);
    if !Working(c, n) then w.Idle?
    else
      match c.pools[n].main
      case Recovering => w.Recovering?
      case Leaving => w.Stopping?
      case Draining => w.Stopping?
      case _ => w.Running?
  }

  ghost predicate WorkersMatch(c: Cluster) { forall n :: WorkerMatches(c, n) }

  ghost predicate PoolsSound(c: Cluster) {
    forall n :: n in c.pools ==> Pools.Fits(c.pools[n]) && Pools.HasSize(c.pools[n], Pools.POOL_SIZE)
  }

  /** A task of the protocol is held by its node's pool, or planned by a tick that is under way. */
  ghost predicate TaskPlaced(c: Cluster, i: nat)
    requires i in c.s.tasks
  {
    var n := c.s.tasks[i].node;
    n in c.pools && (Pools.Holds(c.pools[n], i)
                     || (i in c.planned && (c.pools[n].main.InTick? || c.pools[n].main.Sending?)))
  }

  ghost predicate TasksPlaced(c: Cluster) { forall i :: i in c.s.tasks ==> TaskPlaced(c, i) }

  ghost predicate Linked(c: Cluster) { WorkersMatch(c) && PoolsSound(c) && TasksPlaced(c) }

  /** A pool with nothing in it, out of its ticks, leaves the node without tasks. */
  lemma QuietPoolHasNoTasks(c: Cluster, n: string)
    requires TasksPlaced(c) && n in c.pools && Pools.Quiet(c.pools[n]) && !c.pools[n].main.InTick?
    ensures !HasTasks(c.s.tasks, n)
  {
    forall i | i in c.s.tasks
      ensures c.s.tasks[i].node != n
    {
      assert TaskPlaced(c, i);
    }
  }

  /** The tick barrier: where a tick may begin, the node has no task. */
  lemma BarrierEarnsTick(c: Cluster, n: string)
    requires Linked(c) && PoolAllows(c, n, Pools.BeginTick)
    ensures Enabled(c.s, Protocol.BeginTick(n))
  {
    Pools.NothingCountedIsQuiet(c.pools[n]);
    QuietPoolHasNoTasks(c, n);
    assert WorkerMatches(c, n);
  }

  /** The join: where Run may return, the node has no task. */
  lemma DrainEarnsJoin(c: Cluster, n: string)
    requires Linked(c) && PoolAllows(c, n, Pools.Return)
    ensures Enabled(c.s, Join(n))
  {
    Pools.DrainedIsQuiet(c.pools[n], Pools.POOL_SIZE);
    QuietPoolHasNoTasks(c, n);
    assert WorkerMatches(c, n);
  }

  /** Whatever the whole allows, the protocol allows, with the same effect. */
  lemma PacedIsEnabled(rules: Rules, c: Cluster, event: Event)
    requires Linked(c) && IsPaced(event) && PaceAllows(c, event)
    ensures Enabled(c.s, event) && PacedState(c.s, event) == Perform(rules, c.s, event)
  {
    assert WorkerMatches(c, event.node);
    match event
    case BeginTick(n) => BarrierEarnsTick(c, n);
    case Join(n) => DrainEarnsJoin(c, n);
    case _ =>
  }

  // ------------------------------------------------------------------ every step keeps the link

  /** Only one node's pool and worker change. */
  ghost predicate OnlyNode(c: Cluster, next: Cluster, n: string) {
    && (forall m :: m != n ==> WorkerOf(next.s, m) == WorkerOf(c.s, m))
    && (forall m :: m != n ==> (m in next.pools <==> m in c.pools))
    && (forall m :: m != n && m in c.pools ==> next.pools[m] == c.pools[m])
  }

  lemma OnlyNodeMatches(c: Cluster, next: Cluster, n: string)
    requires WorkersMatch(c) && PoolsSound(c) && OnlyNode(c, next, n)
    requires WorkerMatches(next, n)
    requires n in next.pools ==> Pools.Fits(next.pools[n]) && Pools.HasSize(next.pools[n], Pools.POOL_SIZE)
    ensures WorkersMatch(next) && PoolsSound(next)
  {
    forall m
      ensures WorkerMatches(next, m)
    {
      assert WorkerMatches(c, m);
    }
  }

  /** A move of a pool keeps it sound. */
  lemma MoveKeepsPool(p: Pools.Pool, e: Pools.Event)
    requires Pools.Fits(p) && Pools.HasSize(p, Pools.POOL_SIZE) && Pools.Enabled(p, e)
             && (e.Launch? ==> e.size == Pools.POOL_SIZE)
    ensures Pools.Fits(Pools.Perform(p, e)) && Pools.HasSize(Pools.Perform(p, e), Pools.POOL_SIZE)
  {
    Pools.CountersKept(p, e);
    Pools.PhasesKept(p, e);
    Pools.TasksKept(p, e);
    Pools.RoutinesKept(p, e, Pools.POOL_SIZE);
  }

  /** A move that finishes no task of the protocol and does not leave a tick with tasks planned. */
  ghost predicate MoveKeepsTasks(c: Cluster, n: string, e: Pools.Event) {
    && PoolAllows(c, n, e)
    && (e.Finish? ==> c.pools[n].routines[e.routine].task !in c.s.tasks)
    && (e.AbortTick? || e.ReachBarrier? ==> NothingPlanned(c, n))
  }

  lemma MovePlacesTasks(c: Cluster, n: string, e: Pools.Event, next: Cluster)
    requires TasksPlaced(c) && PoolsSound(c) && MoveKeepsTasks(c, n, e)
    requires next.pools == Moved(c, n, e) && next.s.tasks == c.s.tasks && next.planned == c.planned
    ensures TasksPlaced(next)
  {
    forall i | i in c.s.tasks
      ensures TaskPlaced(next, i)
    {
      assert TaskPlaced(c, i);
      if c.s.tasks[i].node == n && Pools.Holds(c.pools[n], i) {
        Pools.HoldsUnlessFinished(c.pools[n], e, i);
      }
    }
  }

  lemma InnerKeepsLinked(rules: Rules, c: Cluster, n: string, e: Pools.Event)
    requires Linked(c) && InnerAllowed(c, n, e)
    ensures Linked(After(rules, c, Inner(n, e)))
  {
    var next := After(rules, c, Inner(n, e));
    assert WorkerMatches(c, n);
    MoveKeepsPool(c.pools[n], e);
    OnlyNodeMatches(c, next, n);
    MovePlacesTasks(c, n, e, next);
  }

  lemma EnqueueKeepsLinked(rules: Rules, c: Cluster, i: nat)
    requires Linked(c) && Allowed(c, Enqueue(i))
    ensures Linked(After(rules, c, Enqueue(i)))
  {
    var n, next := c.s.tasks[i].node, After(rules, c, Enqueue(i));
    assert WorkerMatches(c, n);
    MoveKeepsPool(c.pools[n], Pools.Add(i));
    OnlyNodeMatches(c, next, n);
    MovePlacesTasks(c, n, Pools.Add(i), next.(planned := c.planned));
    forall j | j in next.s.tasks
      ensures TaskPlaced(next, j)
    {
      assert TaskPlaced(next.(planned := c.planned), j);
    }
  }

  lemma SkipKeepsLinked(rules: Rules, c: Cluster, i: nat)
    requires Linked(c) && Allowed(c, Skip(i))
    ensures Linked(After(rules, c, Skip(i)))
  {
    var next := After(rules, c, Skip(i));
    forall m
      ensures WorkerMatches(next, m)
    {
      assert WorkerMatches(c, m);
    }
    forall j | j in next.s.tasks
      ensures TaskPlaced(next, j)
    {
      assert TaskPlaced(c, j);
    }
  }

  /** The pool's event in a paced one. */
  function PaceOf(c: Cluster, event: Event): Pools.Event
    requires IsPaced(event) && PaceAllows(c, event) && !event.BeginRecovery?
  {
    match event
    case RecoverFail(_) => Pools.RecoveryFails
    case RecoverDone(_) => Pools.Launch(Pools.POOL_SIZE)
    case BeginTick(_) => Pools.BeginTick
    case Stop(n) => if c.pools[n].main.InTick? then Pools.AbortTick else Pools.LeaveLoop
    case Join(_) => Pools.Return
  }

  lemma PaceIsMove(rules: Rules, c: Cluster, event: Event)
    requires WorkersMatch(c) && IsPaced(event) && PaceAllows(c, event) && !event.BeginRecovery?
    ensures var n, e, next := event.node, PaceOf(c, event), Acted(rules, c, event);
            && MoveKeepsTasks(c, n, e) && next.pools == Moved(c, n, e) && WorkerMatches(next, n) && OnlyNode(c, next, n)
            && next.s.tasks == c.s.tasks && next.planned == c.planned
  {
    assert WorkerMatches(c, event.node);
  }

  lemma PaceKeepsLinked(rules: Rules, c: Cluster, event: Event)
    requires Linked(c) && IsPaced(event) && PaceAllows(c, event) && !event.BeginRecovery?
    ensures Linked(Acted(rules, c, event))
  {
    var n, e, next := event.node, PaceOf(c, event), Acted(rules, c, event);
    PaceIsMove(rules, c, event);
    MoveKeepsPool(c.pools[n], e);
    OnlyNodeMatches(c, next, n);
    MovePlacesTasks(c, n, e, next);
  }

  /** A worker is started anew: the one before it has left no task. */
  lemma StartKeepsLinked(rules: Rules, c: Cluster, n: string)
    requires Linked(c) && PaceAllows(c, BeginRecovery(n))
    ensures Linked(Acted(rules, c, BeginRecovery(n)))
  {
    var next := Acted(rules, c, BeginRecovery(n));
    OnlyNodeMatches(c, next, n);
    if n in c.pools {
      Pools.ReturnedIsQuiet(c.pools[n]);
      QuietPoolHasNoTasks(c, n);
    }
    forall i | i in next.s.tasks
      ensures TaskPlaced(next, i)
    {
      assert TaskPlaced(c, i);
      assert c.s.tasks[i].node != n;
    }
  }

  // ------------------------------------------------------------------ the protocol's own events

  predicate SameKind(a: WorkerState, b: WorkerState) {
    a.Idle? == b.Idle? && a.Recovering? == b.Recovering? && a.Running? == b.Running? && a.Stopping? == b.Stopping?
  }

  /** Workers stay where they are, tasks end or move on. */
  ghost predicate Steady(s: State, next: State) {
    && (forall m :: SameKind(WorkerOf(next, m), WorkerOf(s, m)))
    && (forall i :: i in next.tasks ==> i in s.tasks && next.tasks[i].node == s.tasks[i].node)
  }

  /** Events that neither create tasks nor move a worker. */
  predicate IsSteady(event: Event) {
    !IsPaced(event) && !event.Crash? && !event.TickClaim? && !event.TickScan?
        && !(event.RecoverPropose? && !event.fate.Committed?)
  }

  lemma SteadyEvent(rules: Rules, s: State, event: Event)
    requires Enabled(s, event) && IsSteady(event)
    ensures Steady(s, Perform(rules, s, event))
  {
  }

  lemma SteadyKeepsLinked(c: Cluster, next: State)
    requires Linked(c) && Steady(c.s, next)
    ensures Linked(c.(s := next))
  {
    var after := c.(s := next);
    forall m
      ensures WorkerMatches(after, m)
    {
      assert WorkerMatches(c, m);
    }
    forall i | i in next.tasks
      ensures TaskPlaced(after, i)
    {
      assert TaskPlaced(c, i);
    }
  }

  lemma CrashKeepsLinked(rules: Rules, c: Cluster, n: string)
    requires Linked(c)
    ensures Linked(Acted(rules, c, Crash(n)))
  {
    var next := Acted(rules, c, Crash(n));
    OnlyNodeMatches(c, next, n);
    forall i | i in next.s.tasks
      ensures TaskPlaced(next, i)
    {
      assert TaskPlaced(c, i);
    }
  }

  /** Recovery gives up: its proposal was lost or is in doubt. */
  lemma GiveUpKeepsLinked(rules: Rules, c: Cluster, n: string, fate: Fate)
    requires Linked(c) && ActAllowed(c, RecoverPropose(n, fate)) && !fate.Committed?
    ensures Linked(Acted(rules, c, RecoverPropose(n, fate)))
  {
    var next := Acted(rules, c, RecoverPropose(n, fate));
    assert WorkerMatches(c, n);
    MoveKeepsPool(c.pools[n], Pools.RecoveryFails);
    OnlyNodeMatches(c, next, n);
    MovePlacesTasks(c, n, Pools.RecoveryFails, next);
  }

  lemma ClaimedTask(rules: Rules, s: State, n: string, claim: ClaimExecutionCommand, fate: Fate, i: nat)
    requires Enabled(s, TickClaim(n, claim, fate, i))
    ensures var next := Perform(rules, s, TickClaim(n, claim, fate, i));
            && next.workers == s.workers
            && (forall j :: j in next.tasks ==> if j == i then next.tasks[j].node == n
                                                else j in s.tasks && next.tasks[j] == s.tasks[j])
  {
  }

  lemma ClaimKeepsLinked(rules: Rules, c: Cluster, n: string, claim: ClaimExecutionCommand, fate: Fate, i: nat)
    requires Linked(c) && ActAllowed(c, TickClaim(n, claim, fate, i))
    ensures Linked(Acted(rules, c, TickClaim(n, claim, fate, i)))
  {
    var next := Acted(rules, c, TickClaim(n, claim, fate, i));
    ClaimedTask(rules, c.s, n, claim, fate, i);
    if i in next.s.tasks {
      MoveKeepsPool(c.pools[n], Pools.Add(i));
      ClaimPlacesTasks(c, next, n, i);
    } else {
      SteadyKeepsLinked(c, next.s);
    }
  }

  lemma ClaimPlacesTasks(c: Cluster, next: Cluster, n: string, i: nat)
    requires Linked(c) && InTick(c, n) && next.pools == Moved(c, n, Pools.Add(i)) && next.planned == c.planned
    requires Pools.Fits(next.pools[n]) && Pools.HasSize(next.pools[n], Pools.POOL_SIZE) && next.s.workers == c.s.workers
    requires forall j :: j in next.s.tasks ==>
      if j == i then next.s.tasks[j].node == n else j in c.s.tasks && next.s.tasks[j] == c.s.tasks[j]
    ensures Linked(next)
  {
    assert WorkerMatches(c, n);
    OnlyNodeMatches(c, next, n);
    MovePlacesTasks(c, n, Pools.Add(i), c.(pools := next.pools));
    forall j | j in next.s.tasks
      ensures TaskPlaced(next, j)
    {
      if j != i {
        assert TaskPlaced(c.(pools := next.pools), j);
      }
    }
  }

  lemma ScanKeepsLinked(rules: Rules, c: Cluster, n: string, tenant: string, now: Instant, chosen: map<nat, Key>)
    requires Linked(c) && ActAllowed(c, TickScan(n, tenant, now, chosen))
    ensures Linked(Acted(rules, c, TickScan(n, tenant, now, chosen)))
  {
    var next := Acted(rules, c, TickScan(n, tenant, now, chosen));
    assert WorkerMatches(c, n);
    OnlyNodeMatches(c, next, n);
    forall i | i in next.s.tasks
      ensures TaskPlaced(next, i)
    {
      if i !in chosen {
        assert TaskPlaced(c, i);
      }
    }
  }

  lemma ActKeepsLinked(rules: Rules, c: Cluster, event: Event)
    requires Linked(c) && ActAllowed(c, event) && !IsPaced(event)
    ensures Linked(Acted(rules, c, event))
  {
    if IsSteady(event) {
      SteadyEvent(rules, c.s, event);
      SteadyKeepsLinked(c, Perform(rules, c.s, event));
    } else {
      match event
      case Crash(n) => CrashKeepsLinked(rules, c, n);
      case RecoverPropose(n, fate) => GiveUpKeepsLinked(rules, c, n, fate);
      case TickClaim(n, claim, fate, i) => ClaimKeepsLinked(rules, c, n, claim, fate, i);
      case TickScan(n, tenant, now, chosen) => ScanKeepsLinked(rules, c, n, tenant, now, chosen);
    }
  }

  lemma StepKeepsLinked(rules: Rules, c: Cluster, step: Step)
    requires Linked(c) && Allowed(c, step)
    ensures Linked(After(rules, c, step))
  {
    match step
    case Inner(n, e) => InnerKeepsLinked(rules, c, n, e);
    case Enqueue(i) => EnqueueKeepsLinked(rules, c, i);
    case Skip(i) => SkipKeepsLinked(rules, c, i);
    case Act(event) =>
      if event.BeginRecovery? {
        StartKeepsLinked(rules, c, event.node);
      } else if IsPaced(event) {
        PaceKeepsLinked(rules, c, event);
      } else {
        ActKeepsLinked(rules, c, event);
      }
  }

  // ------------------------------------------------------------------ every run is a run of the protocol

  /** The protocol's event in a step, if it has one. */
  function EventOf(step: Step): Option<Event> {
    match step
    case Act(event) => Some(event)
    case Skip(i) => Some(TaskEnds(i))
    case _ => None
  }

  lemma StepIsEvent(rules: Rules, c: Cluster, step: Step)
    requires Linked(c) && Allowed(c, step)
    ensures match EventOf(step)
            case None => After(rules, c, step).s == c.s
            case Some(event) => After(rules, c, step).s == Next(rules, c.s, event)
  {
    if step.Act? && IsPaced(step.event) {
      PacedIsEnabled(rules, c, step.event);
    }
  }

  lemma BeginningIsLinked()
    ensures Linked(BEGINNING)
  {
  }

  lemma {:induction false} EveryRunIsLinked(rules: Rules, steps: seq<Step>)
    ensures Linked(Run(rules, steps))
  {
    if steps == [] {
      BeginningIsLinked();
    } else {
      var c, step := Run(rules, steps[..|steps| - 1]), steps[|steps| - 1];
      EveryRunIsLinked(rules, steps[..|steps| - 1]);
      if Allowed(c, step) {
        StepKeepsLinked(rules, c, step);
      }
    }
  }

  /** Every run of nodes with real pools, channels and wait groups is a run of the protocol, so
      everything proved of its runs holds of them. */
  lemma {:induction false} EveryRunIsAProtocolRun(rules: Rules, steps: seq<Step>) returns (events: seq<Event>)
    ensures Run(rules, steps).s == RunFrom(rules, START, events)
  {
    events := [];
    if steps != [] {
      var c, step := Run(rules, steps[..|steps| - 1]), steps[|steps| - 1];
      events := EveryRunIsAProtocolRun(rules, steps[..|steps| - 1]);
      EveryRunIsLinked(rules, steps[..|steps| - 1]);
      if Allowed(c, step) {
        StepIsEvent(rules, c, step);
        if EventOf(step).Some? {
          assert (events + [EventOf(step).value])[..|events|] == events;
          events := events + [EventOf(step).value];
        }
      }
    }
  }

  /** A worker begins a tick or its recovery only when its node has no task left: of the tick
      before, or of the worker before. */
  lemma WorkersBeginWithoutTasks(rules: Rules, steps: seq<Step>, n: string)
    requires var c := Run(rules, steps); ActAllowed(c, BeginTick(n)) || ActAllowed(c, BeginRecovery(n))
    ensures !HasTasks(Run(rules, steps).s.tasks, n)
  {
    var c := Run(rules, steps);
    EveryRunIsLinked(rules, steps);
    if ActAllowed(c, BeginTick(n)) {
      BarrierEarnsTick(c, n);
    } else if n in c.pools {
      Pools.ReturnedIsQuiet(c.pools[n]);
      QuietPoolHasNoTasks(c, n);
    } else {
      forall i | i in c.s.tasks ensures c.s.tasks[i].node != n { assert TaskPlaced(c, i); }
    }
  }

  /** And so, with nothing assumed about tasks: no attempt follows a success or a terminal
      failure, in any interleaving of nodes, goroutines, ticks, crashes and elections. */
  lemma NothingFollowsInEveryRun(rules: Rules, steps: seq<Step>, a: Key, b: Key)
    requires var attempts := Run(rules, steps).s.db.attempts;
             a in attempts && b in attempts && ExecutionKeyOf(attempts[a]) == ExecutionKeyOf(attempts[b])
             && attempts[a].attemptNumber < attempts[b].attemptNumber
    ensures Run(rules, steps).s.db.attempts[a].outcome.OutcomeRetry?
  {
    var events := EveryRunIsAProtocolRun(rules, steps);
    NothingFollowsASettledAttempt(rules, events, a, b);
  }
}
