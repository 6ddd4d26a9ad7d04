/** What holds in every interleaving of the dispatch protocol. */
module ProtocolTheorems {
  import opened Base
  import opened Calendar
  import opened Domain
  import opened Fsm
  import opened Changes
  import opened LogTheorems
  import opened Storage
  import opened Worker
  import opened Protocol
  import opened ProtocolSafety

  ghost predicate Safe(rules: Rules, s: State) {
    CoreFits(rules, s) && RolesFit(s) && CommandsFit(s)
  }

  predicate IsProposal(event: Event) {
    event.RecoverPropose? || event.TickClaim? || event.ProposeRecord? || event.ProposeComplete?
  }

  lemma ProposalKeepsRoles(rules: Rules, s: State, event: Event)
    requires RolesFit(s) && CommandsFit(s) && Enabled(s, event) && IsProposal(event)
    ensures RolesFit(Perform(rules, s, event))
  {
    match event
    case RecoverPropose(n, fate) => RecoverProposeKeepsRoles(rules, s, n, fate);
    case TickClaim(n, claim, fate, i) => ClaimKeepsRoles(rules, s, n, claim, fate, i);
    case ProposeRecord(i, fate) => RecordKeepsRoles(rules, s, i, fate);
    case ProposeComplete(i, fate) => CompleteKeepsRoles(rules, s, i, fate);
  }

  lemma EventKeepsRoles(rules: Rules, s: State, event: Event)
    requires RolesFit(s) && CommandsFit(s) && SelfKeyed(s.db) && Enabled(s, event)
    ensures RolesFit(Perform(rules, s, event))
  {
    if IsProposal(event) {
      ProposalKeepsRoles(rules, s, event);
    } else if event.TickScan? {
      ScanKeepsRoles(rules, s, event.node, event.tenant, event.now, event.chosen);
    } else {
      QuieterKeepsRoles(rules, s, event);
    }
  }

  lemma QuieterKeepsRoles(rules: Rules, s: State, event: Event)
    requires RolesFit(s) && Enabled(s, event)
    requires !IsProposal(event) && !event.TickScan?
    ensures RolesFit(Perform(rules, s, event))
  {
    if event.Elect? || event.StepDown? || event.Crash? || event.Decide? || event.UserCommand? {
      LeadershipKeepsRoles(rules, s, event);
    } else if event.BeginTick? || event.ReadDue? || event.Stop? || event.Join? {
      TickKeepsRoles(rules, s, event);
    } else if event.ReadSchedule? || event.Respond? || event.ReadAttempts? || event.TaskEnds? {
      TaskStepKeepsRoles(rules, s, event);
    } else {
      RecoveryKeepsRoles(rules, s, event);
    }
  }

  lemma EventKeepsCommands(rules: Rules, s: State, event: Event)
    requires RolesFit(s) && CommandsFit(s) && SelfKeyed(s.db) && Enabled(s, event)
    ensures CommandsFit(Perform(rules, s, event))
  {
    if event.ReadSchedule? || event.Respond? {
      TaskStepKeepsCommands(rules, s, event);
    } else if event.TickClaim? || event.ProposeRecord? {
      ProposalKeepsCommands(rules, s, event);
    } else if event.TickScan? {
      ScanKeepsCommands(rules, s, event);
    } else {
      OtherStepKeepsCommands(rules, s, event);
    }
  }

  lemma ActiveEventKeepsCore(rules: Rules, s: State, event: Event)
    requires CoreFits(rules, s) && RolesFit(s) && CommandsFit(s) && Enabled(s, event) && !IsQuiet(event)
    ensures CoreFits(rules, Perform(rules, s, event))
  {
    match event
    case Decide(entry) => DecideKeepsSafe(rules, s, entry);
    case UserCommand(entry) => UserCommandKeepsCore(rules, s, entry);
    case RecoverPropose(n, fate) => RecoverProposeKeepsCore(rules, s, n, fate);
    case TickClaim(n, claim, fate, i) => ClaimKeepsCore(rules, s, n, claim, fate, i);
    case TickScan(n, tenant, now, chosen) => ScanKeepsCore(rules, s, n, tenant, now, chosen);
    case ProposeRecord(i, fate) => ProposeRecordKeepsCore(rules, s, i, fate);
    case ProposeComplete(i, fate) => CompleteKeepsCore(rules, s, i, fate);
  }

  lemma EventKeepsCore(rules: Rules, s: State, event: Event)
    requires CoreFits(rules, s) && RolesFit(s) && CommandsFit(s) && Enabled(s, event)
    ensures CoreFits(rules, Perform(rules, s, event))
  {
    if IsQuiet(event) {
      QuietEventKeepsCore(rules, s, event);
    } else {
      ActiveEventKeepsCore(rules, s, event);
    }
  }

  lemma EventKeepsSafe(rules: Rules, s: State, event: Event)
    requires Safe(rules, s)
    ensures Safe(rules, Next(rules, s, event))
  {
    if Enabled(s, event) {
      EventKeepsRoles(rules, s, event);
      EventKeepsCommands(rules, s, event);
      EventKeepsCore(rules, s, event);
    }
  }

  lemma EmptyHistory()
    ensures History(EMPTY_DB)
  {
  }

  lemma EmptyTablesFit(rules: Rules)
    ensures TablesFit(rules, EMPTY_DB)
  {
    EveryLogIsSound(rules, []);
    assert Run(rules, EMPTY_DB, []) == EMPTY_DB;
    EmptyHistory();
  }

  lemma NoRecordersAtStart()
    ensures RecordersFit(map[], map[], {}) && RolesFit(START) && CommandsFit(START)
  {
  }

  lemma StartIsSafe(rules: Rules)
    ensures Safe(rules, START)
  {
    EmptyTablesFit(rules);
    NoRecordersAtStart();
  }

  lemma {:induction false} EveryRunIsSafe(rules: Rules, events: seq<Event>)
    ensures Safe(rules, RunFrom(rules, START, events))
  {
    if events == [] {
      StartIsSafe(rules);
    } else {
      EveryRunIsSafe(rules, events[..|events| - 1]);
      EventKeepsSafe(rules, RunFrom(rules, START, events[..|events| - 1]), events[|events| - 1]);
    }
  }

  /** In every interleaving of nodes, stale tasks, crashes, lost and regained leadership and
      recovery: whatever is recorded before the last attempt of an execution is a retry, so no
      attempt ever follows a success or a terminal failure. */
  lemma NothingFollowsASettledAttempt(rules: Rules, events: seq<Event>, a: Key, b: Key)
    requires var attempts := RunFrom(rules, START, events).db.attempts;
             a in attempts && b in attempts && ExecutionKeyOf(attempts[a]) == ExecutionKeyOf(attempts[b])
             && attempts[a].attemptNumber < attempts[b].attemptNumber
    ensures RunFrom(rules, START, events).db.attempts[a].outcome.OutcomeRetry?
  {
    EveryRunIsSafe(rules, events);
  }

  /** Recorders of the same node never compete for an execution that node owns. */
  lemma OneLiveRecorder(rules: Rules, events: seq<Event>, i: nat, j: nat)
    requires var s := RunFrom(rules, START, events);
             && i in s.tasks && j in s.tasks && IsRecorder(s.tasks[i]) && IsRecorder(s.tasks[j])
             && TaskKey(s.tasks[i]) == TaskKey(s.tasks[j]) && s.tasks[i].node == s.tasks[j].node
             && Owns(s.db.executions, s.tasks[i].node, TaskKey(s.tasks[i]))
    ensures i == j
  {
    EveryRunIsSafe(rules, events);
  }

  /** In every reachable state the tick decides by the attempt recorded last. */
  lemma TickGoesByTheLastInEveryRun(rules: Rules, events: seq<Event>, k: Key, now: Instant)
    requires k in RunFrom(rules, START, events).db.executions
    ensures var db := RunFrom(rules, START, events).db;
            var decision := TickDecision(db.executions[k], now);
            && (HasNoAttempt(db.attempts, k) ==> decision.Leave?)
            && (forall a :: IsLastOf(db.attempts, k, a) ==> TickGoesBy(decision, db.attempts[a], now))
  {
    var db := RunFrom(rules, START, events).db;
    EveryRunIsSafe(rules, events);
    if HasNoAttempt(db.attempts, k) {
      TickLeavesUntried(db, k, now);
    }
    forall a | IsLastOf(db.attempts, k, a)
      ensures TickGoesBy(TickDecision(db.executions[k], now), db.attempts[a], now)
    {
      TickGoesByTheLast(db, k, a, now);
    }
  }

  /** And recovery by the one with the greatest ID. */
  lemma RecoveryGoesByTheGreatestInEveryRun(rules: Rules, events: seq<Event>, k: Key, now: Instant)
    ensures var db := RunFrom(rules, START, events).db;
            var bucket := ClassifyOne(ListAttempts(db, k.0, k.1), now);
            && (HasNoAttempt(db.attempts, k) ==> bucket == Some(NoAttempts))
            && (forall a :: IsGreatestOf(db.attempts, k, a) ==> RecoveryGoesBy(bucket, db.attempts[a], now))
  {
    var db := RunFrom(rules, START, events).db;
    EveryRunIsSafe(rules, events);
    if HasNoAttempt(db.attempts, k) {
      RecoverySeesUntried(db, k, now);
    }
    forall a | IsGreatestOf(db.attempts, k, a)
      ensures RecoveryGoesBy(ClassifyOne(ListAttempts(db, k.0, k.1), now), db.attempts[a], now)
    {
      RecoveryGoesByTheGreatest(db, k, a, now);
    }
  }

  /** In every reachable state the tick's decision from the cached fields is, at every time,
      recovery's decision from the attempts, if and only if the attempt with the greatest ID reads
      like the last. */
  lemma TickAgreesInEveryRunIff(rules: Rules, events: seq<Event>, k: Key)
    requires k in RunFrom(rules, START, events).db.executions
    ensures var db := RunFrom(rules, START, events).db;
            (forall now :: Agree(db.executions[k], ListAttempts(db, k.0, k.1), now)) <==> GreatestReadsLikeLast(db, k)
    ensures var db := RunFrom(rules, START, events).db;
            (IdsIncrease(db.attempts) ==> LastIsGreatest(db, k))
                && (LastIsGreatest(db, k) ==> GreatestReadsLikeLast(db, k))
  {
    var db := RunFrom(rules, START, events).db;
    EveryRunIsSafe(rules, events);
    TickAgreesWithRecoveryIff(rules, db, k);
    if IdsIncrease(db.attempts) {
      IncreasingIdsSuffice(db, k);
    }
  }

  // ------------------------------------------------------------------ what an event commits

  /** The entry an event commits, if it commits one. */
  ghost function CommittedEntry(s: State, event: Event): Option<LogEntry>
    requires Enabled(s, event)
  {
    match event
    case Decide(entry) => Some(entry)
    case UserCommand(entry) => Some(entry)
    case RecoverPropose(n, Committed(at)) => Some(LogEntry(WorkerOf(s, n).intent.value, at))
    case TickClaim(_, claim, Committed(at), _) => Some(LogEntry(ClaimExecution(claim), at))
    case ProposeRecord(i, Committed(at)) => Some(LogEntry(RecordAttempt(s.tasks[i].phase.record), at))
    case ProposeComplete(i, Committed(at)) => Some(LogEntry(CompleteExecution(s.tasks[i].phase.complete), at))
    case _ => None
  }

  lemma EventCommits(rules: Rules, s: State, event: Event)
    requires Enabled(s, event)
    ensures match CommittedEntry(s, event)
            case None => Perform(rules, s, event).db == s.db
            case Some(entry) => Fresh(s.db, entry.command) && Perform(rules, s, event).db == After(rules, s.db, entry)
  {
  }
}
