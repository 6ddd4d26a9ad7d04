/**
 Completion is earned: in every interleaving an execution ends exactly as its last attempt says,
 whoever completes it, and a finalize task finds attempts it can act on exactly where the last of
 them has the greatest ID.
 */
module ProtocolHonesty {
  import opened Base
  import opened Calendar
  import opened Domain
  import opened Fsm
  import opened Changes
  import opened LogTheorems
  import opened Buckets
  import opened Storage
  import opened Worker
  import opened Protocol
  import opened ProtocolSafety
  import opened ProtocolTheorems

  /** The last attempt succeeded, or failed for good. */
  ghost predicate Settled(db: DB, k: Key, success: bool) {
    && k in db.executions && db.executions[k].attemptCount > 0 && LastAttempt(db, k).Some?
    && LastAttempt(db, k).value.outcome == if success then OutcomeSuccess else OutcomeTerminalFailure
  }

  function CompleteKey(cmd: CompleteExecutionCommand): Key { (cmd.tenantID, cmd.executionID) }

  ghost predicate Earned(db: DB, cmd: CompleteExecutionCommand) {
    var success := cmd.finalStatus.Succeeded?;
    cmd == CompleteAs(CompleteKey(cmd), success) && Settled(db, CompleteKey(cmd), success)
  }

  ghost predicate EndedAs(e: Execution, success: bool) {
    if success then e.status.Succeeded? && e.finalOutcome == "success"
    else e.status.FailedTerminal? && e.finalOutcome == "terminal_failure"
  }

  /** An execution that has ended, ended as its last attempt says. */
  ghost predicate EndsFit(db: DB) {
    forall k :: k in db.executions && IsTerminal(db.executions[k].status) ==>
      var success := db.executions[k].status.Succeeded?;
      EndedAs(db.executions[k], success) && Settled(db, k, success)
  }

  ghost predicate TaskIsHonest(db: DB, t: Task) {
    && (t.phase.Completing? ==> Earned(db, t.phase.complete))
    && (t.kind.Finalize? && t.phase.Queued? ==> Settled(db, TaskKey(t), true) || Settled(db, TaskKey(t), false))
  }

  ghost predicate CommandIsHonest(db: DB, command: Command) {
    !command.FailExecutionTimeout? && (command.CompleteExecution? ==> Earned(db, command.complete))
  }

  ghost predicate WorkerIsHonest(db: DB, w: WorkerState) {
    w.Recovering? && w.intent.Some? ==> CommandIsHonest(db, w.intent.value)
  }

  ghost predicate Honest(s: State) { EndsFit(s.db) && ActorsAreHonest(s) }

  ghost predicate ActorsAreHonest(s: State) {
    && (forall i :: i in s.tasks ==> TaskIsHonest(s.db, s.tasks[i]))
    && (forall p :: p in s.pending ==> CommandIsHonest(s.db, p.command))
    && (forall n :: n in s.workers ==> WorkerIsHonest(s.db, s.workers[n]))
  }

  // ------------------------------------------------------------------ what is settled stays settled

  ghost predicate Stable(db: DB, next: DB) {
    forall k, success :: Settled(db, k, success) ==> Settled(next, k, success)
  }

  lemma SettledIsNotReceptive(db: DB, k: Key, success: bool)
    requires Cached(db) && Settled(db, k, success)
    ensures !Receptive(db.executions[k])
  {
    assert CachedAt(db.executions[k], LastAttempt(db, k));
  }

  lemma ChangeKeepsSettled(rules: Rules, db: DB, c: Change, k: Key, success: bool)
    requires Cached(db) && Allowed(rules, db, c) && FreshChange(db, c) && RecordFits(db, c) && Settled(db, k, success)
    ensures Settled(Moved(db, c), k, success)
  {
    SettledIsNotReceptive(db, k, success);
    ChangeElsewhere(rules, db, c, k);
    assert (k.0, db.executions[k].lastAttemptID) in db.attempts;
  }

  lemma SettledByTables(db: DB, other: DB, k: Key, success: bool)
    requires db.executions == other.executions && db.attempts == other.attempts && Settled(db, k, success)
    ensures Settled(other, k, success)
  {
    assert LastAttempt(other, k) == LastAttempt(db, k);
  }

  lemma CommitKeepsSettled(rules: Rules, db: DB, entry: LogEntry, k: Key, success: bool)
    requires SelfKeyed(db) && Cached(db) && Fresh(db, entry.command) && RecordFits(db, ChangeOf(rules, db, entry))
    requires Settled(db, k, success)
    ensures Settled(After(rules, db, entry), k, success)
  {
    var c := ChangeOf(rules, db, entry);
    StepIsChange(rules, db, entry);
    FreshIsFreshChange(rules, db, entry);
    ChangeKeepsSettled(rules, db, c, k, success);
    SettledByTables(Moved(db, c), After(rules, db, entry), k, success);
  }

  lemma CommitIsStable(rules: Rules, db: DB, entry: LogEntry)
    requires SelfKeyed(db) && Cached(db) && Fresh(db, entry.command) && RecordFits(db, ChangeOf(rules, db, entry))
    ensures Stable(db, After(rules, db, entry))
  {
    forall k, success | Settled(db, k, success)
      ensures Settled(After(rules, db, entry), k, success)
    {
      CommitKeepsSettled(rules, db, entry, k, success);
    }
  }

  /** A committed completion gives its execution the status and outcome it names. */
  lemma FinishedBy(rules: Rules, db: DB, entry: LogEntry)
    requires ChangeOf(rules, db, entry).Finished? && !entry.command.FailExecutionTimeout?
    ensures entry.command.CompleteExecution?
    ensures var c, cmd := ChangeOf(rules, db, entry), entry.command.complete;
            c.k == CompleteKey(cmd) && c.status == cmd.finalStatus && c.outcome == cmd.finalOutcome
  {
  }

  lemma ChangeKeepsEnds(rules: Rules, db: DB, c: Change, next: DB)
    requires EndsFit(db) && Allowed(rules, db, c) && FreshChange(db, c) && Stable(db, next)
    requires next.executions == ExecutionsAfter(db.executions, c)
    requires c.Finished? ==> c.outcome == CompleteAs(c.k, c.status.Succeeded?).finalOutcome
                             && c.status == CompleteAs(c.k, c.status.Succeeded?).finalStatus
                                && Settled(db, c.k, c.status.Succeeded?)
    ensures EndsFit(next)
  {
  }

  lemma CommitKeepsEnds(rules: Rules, db: DB, entry: LogEntry)
    requires SelfKeyed(db) && EndsFit(db) && Fresh(db, entry.command) && Stable(db, After(rules, db, entry))
    requires CommandIsHonest(db, entry.command)
    ensures EndsFit(After(rules, db, entry))
  {
    var c := ChangeOf(rules, db, entry);
    StepIsChange(rules, db, entry);
    FreshIsFreshChange(rules, db, entry);
    if c.Finished? {
      FinishedBy(rules, db, entry);
    }
    ChangeKeepsEnds(rules, db, c, After(rules, db, entry));
  }

  lemma CommitKeepsHonest(rules: Rules, s: State, entry: LogEntry)
    requires TablesFit(rules, s.db) && Honest(s) && Fresh(s.db, entry.command)
             && RecordFits(s.db, ChangeOf(rules, s.db, entry))
    requires CommandIsHonest(s.db, entry.command)
    ensures Honest(s.(db := After(rules, s.db, entry)))
  {
    CommitIsStable(rules, s.db, entry);
    CommitKeepsEnds(rules, s.db, entry);
    StableKeepsHonest(s, After(rules, s.db, entry));
  }

  lemma StableKeepsHonest(s: State, next: DB)
    requires Honest(s) && Stable(s.db, next) && EndsFit(next)
    ensures Honest(s.(db := next))
  {
    forall i | i in s.tasks
      ensures TaskIsHonest(next, s.tasks[i])
    {
      assert TaskIsHonest(s.db, s.tasks[i]);
    }
    forall p | p in s.pending
      ensures CommandIsHonest(next, p.command)
    {
      assert CommandIsHonest(s.db, p.command);
    }
    forall n | n in s.workers
      ensures WorkerIsHonest(next, s.workers[n])
    {
      assert WorkerIsHonest(s.db, s.workers[n]);
    }
  }

  // ------------------------------------------------------------------ readings

  lemma NothingListed(db: DB, k: Key)
    requires SelfKeyed(db) && AuditTrail(db) && k !in db.executions
    ensures ListAttempts(db, k.0, k.1) == []
  {
    var ids := InOrder(AttemptIds(db, k.0, k.1));
    forall id
      ensures id !in ids
    {
      ListedAttempts(db, k, id);
    }
    HeadIsIn(ids);
  }

  /** The list ends with a final attempt exactly where the execution is settled and its last attempt
      has the greatest ID. */
  lemma ListTellsSettledIff(db: DB, k: Key, success: bool)
    requires SelfKeyed(db) && AuditTrail(db) && OnlyLastSettles(db)
    ensures var list := ListAttempts(db, k.0, k.1);
            list != [] && list[|list| - 1].outcome == (if success then OutcomeSuccess else OutcomeTerminalFailure)
            <==> Settled(db, k, success) && LastIsGreatest(db, k)
  {
    var list := ListAttempts(db, k.0, k.1);
    if k in db.executions {
      CountedAreListed(db, k);
      ListEndsWithLastIff(db, k);
      if list != [] && !list[|list| - 1].outcome.OutcomeRetry? {
        FinalIsLast(db, k);
      }
    } else {
      NothingListed(db, k);
    }
  }

  /** What a reading of the attempts would propose is earned, and something is proposed exactly where
      the last attempt of a settled execution has the greatest ID. */
  lemma FinalizeIsEarned(db: DB, k: Key)
    requires SelfKeyed(db) && AuditTrail(db) && OnlyLastSettles(db)
    ensures var cmd := FinalizeCommand(k, ListAttempts(db, k.0, k.1));
            && (cmd.Some? ==> Earned(db, cmd.value))
            && (cmd.Some? <==> (Settled(db, k, true) || Settled(db, k, false)) && LastIsGreatest(db, k))
  {
    ListTellsSettledIff(db, k, true);
    ListTellsSettledIff(db, k, false);
  }

  lemma RecoveryIsHonest(db: DB, n: string, listed: Execution, now: Instant)
    requires SelfKeyed(db) && AuditTrail(db) && OnlyLastSettles(db)
    requires ClassifyOne(ListAttempts(db, listed.tenantID, listed.id), now).Some?
    ensures var bucket := ClassifyOne(ListAttempts(db, listed.tenantID, listed.id), now).value;
            WorkerIsHonest(db, Recovering(RecoveryCommand(n, listed, bucket)))
  {
    ListTellsSettledIff(db, (listed.tenantID, listed.id), true);
    ListTellsSettledIff(db, (listed.tenantID, listed.id), false);
  }

  lemma ScannedIsHonest(db: DB, n: string, k: Key, now: Instant)
    requires SelfKeyed(db) && Cached(db) && k in db.executions && !TickDecision(db.executions[k], now).Leave?
    requires db.executions[k].attemptCount == 0 <==> db.executions[k].lastAttemptID == ""
    ensures TaskIsHonest(db, ScanTask(db, n, k, now))
  {
    assert CachedAt(db.executions[k], LastAttempt(db, k));
  }

  // ------------------------------------------------------------------ one event

  /** Only honest tasks, entries in doubt and intents appear. */
  ghost predicate AddsHonestly(s: State, next: State) {
    && next.db == s.db
    && (forall i :: i in next.tasks ==> (i in s.tasks && next.tasks[i] == s.tasks[i])
                                        || TaskIsHonest(s.db, next.tasks[i]))
    && (forall p :: p in next.pending ==> p in s.pending || CommandIsHonest(s.db, p.command))
    && (forall n :: n in next.workers ==> (n in s.workers && next.workers[n] == s.workers[n])
                                          || WorkerIsHonest(s.db, next.workers[n]))
  }

  lemma AddingKeepsHonest(s: State, next: State)
    requires Honest(s) && AddsHonestly(s, next)
    ensures Honest(next)
  {
  }

  lemma QuietAddsHonestly(rules: Rules, s: State, event: Event)
    requires Enabled(s, event) && IsQuiet(event) && !event.RecoverRead? && !event.ReadAttempts?
    requires forall i :: i in s.tasks ==> PhaseFits(s.tasks[i])
    ensures AddsHonestly(s, Perform(rules, s, event))
  {
    if event.Respond? || event.ReadSchedule? {
      assert PhaseFits(s.tasks[event.task]);
    }
  }

  lemma IntentAddsHonestly(s: State, n: string, w: WorkerState)
    requires WorkerIsHonest(s.db, w)
    ensures AddsHonestly(s, SetWorker(s, n, w))
  {
  }

  lemma PhaseAddsHonestly(s: State, i: nat, phase: Phase)
    requires i in s.tasks && TaskIsHonest(s.db, s.tasks[i].(phase := phase))
    ensures AddsHonestly(s, SetPhase(s, i, phase))
  {
  }

  lemma ReadingAddsHonestly(rules: Rules, s: State, event: Event)
    requires SelfKeyed(s.db) && AuditTrail(s.db) && OnlyLastSettles(s.db)
    requires Enabled(s, event) && (event.RecoverRead? || event.ReadAttempts?)
    ensures AddsHonestly(s, Perform(rules, s, event))
  {
    match event
    case RecoverRead(n, listed, now) =>
      RecoveryIsHonest(s.db, n, listed, now);
      var bucket := ClassifyOne(ListAttempts(s.db, listed.tenantID, listed.id), now).value;
      IntentAddsHonestly(s, n, Recovering(RecoveryCommand(n, listed, bucket)));
    case ReadAttempts(i) =>
      var k := TaskKey(s.tasks[i]);
      FinalizeIsEarned(s.db, k);
      PhaseAddsHonestly(s, i, Completing(FinalizeCommand(k, ListAttempts(s.db, k.0, k.1)).value));
  }

  lemma ScanAddsHonestly(rules: Rules, s: State, n: string, tenant: string, now: Instant, chosen: map<nat, Key>)
    requires Consistent(rules, s.db) && Cached(s.db) && Enabled(s, TickScan(n, tenant, now, chosen))
    ensures AddsHonestly(s, Perform(rules, s, TickScan(n, tenant, now, chosen)))
  {
    ScanTasksAreHonest(rules, s, n, tenant, now, chosen);
  }

  lemma ScanTasksAreHonest(rules: Rules, s: State, n: string, tenant: string, now: Instant, chosen: map<nat, Key>)
    requires Consistent(rules, s.db) && Cached(s.db) && ScanChooses(s, tenant, now, chosen)
    ensures forall i :: i in chosen ==> TaskIsHonest(s.db, ScanTask(s.db, n, chosen[i], now))
  {
    forall i | i in chosen
      ensures TaskIsHonest(s.db, ScanTask(s.db, n, chosen[i], now))
    {
      ScannedIsHonest(s.db, n, chosen[i], now);
    }
  }

  lemma EndingAddsHonestly(s: State, i: nat)
    ensures AddsHonestly(s, EndTask(s, i))
  {
  }

  lemma DoubtAddsHonestly(s: State, next: State, command: Command, at: Instant)
    requires AddsHonestly(s, next) && CommandIsHonest(s.db, command)
    ensures AddsHonestly(s, Doubt(next, command, at))
  {
  }

  /** A proposal lost or in doubt. */
  lemma UncommittedAddsHonestly(rules: Rules, s: State, event: Event)
    requires Honest(s) && Enabled(s, event)
    requires IsProposal(event) && !event.fate.Committed?
    ensures AddsHonestly(s, Perform(rules, s, event))
  {
    match event
    case RecoverPropose(n, fate) =>
      assert WorkerIsHonest(s.db, s.workers[n]);
      if fate.InDoubt? { DoubtAddsHonestly(s, SetWorker(s, n, Idle), WorkerOf(s, n).intent.value, fate.at); }
    case TickClaim(n, claim, fate, _) =>
      if fate.InDoubt? { DoubtAddsHonestly(s, s, ClaimExecution(claim), fate.at); }
    case ProposeRecord(i, fate) =>
      EndingAddsHonestly(s, i);
      if fate.InDoubt? { DoubtAddsHonestly(s, EndTask(s, i), RecordAttempt(s.tasks[i].phase.record), fate.at); }
    case ProposeComplete(i, fate) =>
      EndingAddsHonestly(s, i);
      assert TaskIsHonest(s.db, s.tasks[i]);
      if fate.InDoubt? { DoubtAddsHonestly(s, EndTask(s, i), CompleteExecution(s.tasks[i].phase.complete), fate.at); }
  }

  lemma DecideKeepsHonest(rules: Rules, s: State, entry: LogEntry)
    requires Safe(rules, s) && Honest(s) && Enabled(s, Decide(entry))
    ensures Honest(Perform(rules, s, Decide(entry)))
  {
    DecidedIsUnrivalled(rules, s, entry);
    assert CommandIsHonest(s.db, entry.command);
    AddingKeepsHonest(s, s.(pending := s.pending - {entry}));
    CommitKeepsHonest(rules, s.(pending := s.pending - {entry}), entry);
  }

  /** Committing a command that records nothing. */
  lemma PlainCommitKeepsHonest(rules: Rules, s: State, command: Command, at: Instant)
    requires TablesFit(rules, s.db) && Honest(s) && Fresh(s.db, command) && !command.RecordAttempt?
             && CommandIsHonest(s.db, command)
    ensures Honest(Commit(rules, s, command, at))
  {
    NothingRecorded(rules, s.db, command, at);
    CommitKeepsHonest(rules, s, LogEntry(command, at));
  }

  lemma NothingRecorded(rules: Rules, db: DB, command: Command, at: Instant)
    requires !command.RecordAttempt?
    ensures !ChangeOf(rules, db, LogEntry(command, at)).Recorded?
  {
  }

  lemma RecoveryCommitKeepsHonest(rules: Rules, s: State, n: string, intent: Command, at: Instant)
    requires TablesFit(rules, s.db) && RolesFit(s) && Honest(s)
    requires WorkerOf(s, n).Recovering? && WorkerOf(s, n).intent == Some(intent)
    ensures Honest(SetWorker(Commit(rules, s, intent, at), n, Recovering(None)))
  {
    WorkerMayStay(s, n);
    assert WorkerIsHonest(s.db, s.workers[n]);
    PlainCommitKeepsHonest(rules, s, intent, at);
    IdleIntentKeepsHonest(Commit(rules, s, intent, at), n);
  }

  lemma IdleIntentKeepsHonest(s: State, n: string)
    requires Honest(s)
    ensures Honest(SetWorker(s, n, Recovering(None)))
  {
    IntentAddsHonestly(s, n, Recovering(None));
    AddingKeepsHonest(s, SetWorker(s, n, Recovering(None)));
  }

  lemma ClaimAddsHonestly(rules: Rules, s: State, n: string, claim: ClaimExecutionCommand, at: Instant, i: nat)
    ensures AddsHonestly(Commit(rules, s, ClaimExecution(claim), at), AfterClaim(rules, s, n, claim, Committed(at), i))
  {
  }

  lemma ClaimCommitKeepsHonest(rules: Rules, s: State, n: string, claim: ClaimExecutionCommand, at: Instant, i: nat)
    requires TablesFit(rules, s.db) && Honest(s) && Fresh(s.db, ClaimExecution(claim))
    ensures Honest(AfterClaim(rules, s, n, claim, Committed(at), i))
  {
    PlainCommitKeepsHonest(rules, s, ClaimExecution(claim), at);
    ClaimAddsHonestly(rules, s, n, claim, at, i);
    AddingKeepsHonest(Commit(rules, s, ClaimExecution(claim), at), AfterClaim(rules, s, n, claim, Committed(at), i));
  }

  lemma CompleteCommitKeepsHonest(rules: Rules, s: State, i: nat, at: Instant)
    requires TablesFit(rules, s.db) && Honest(s) && i in s.tasks && s.tasks[i].phase.Completing?
    ensures Honest(EndTask(Commit(rules, s, CompleteExecution(s.tasks[i].phase.complete), at), i))
  {
    assert TaskIsHonest(s.db, s.tasks[i]);
    var command := CompleteExecution(s.tasks[i].phase.complete);
    PlainCommitKeepsHonest(rules, s, command, at);
    AddingKeepsHonest(Commit(rules, s, command, at), EndTask(Commit(rules, s, command, at), i));
  }

  /** An accepted record that is not a retry settles the execution. */
  lemma RecordSettles(rules: Rules, db: DB, record: RecordAttemptCommand)
    requires SelfKeyed(db) && WorkerMade(record) && !record.outcome.OutcomeRetry?
             && ApplyRecordAttempt(db, record).Accepted?
    ensures Earned(ApplyRecordAttempt(db, record).db,
                   CompleteAs(RecordKey(record), !record.outcome.OutcomeTerminalFailure?))
  {
    RecordIsChange(rules, db, record);
  }

  lemma RecordCommitKeepsHonest(rules: Rules, s: State, i: nat, at: Instant)
    requires Safe(rules, s) && Honest(s) && i in s.tasks && s.tasks[i].phase.Recording?
    requires Fresh(s.db, RecordAttempt(s.tasks[i].phase.record))
    ensures Honest(AfterRecord(rules, s, i, s.tasks[i].phase.record, Committed(at)))
  {
    var record := s.tasks[i].phase.record;
    var mid := Commit(rules, s, RecordAttempt(record), at);
    assert PhaseFits(s.tasks[i]);
    ProposedRecordFits(rules, s, i, at);
    CommitKeepsHonest(rules, s, LogEntry(RecordAttempt(record), at));
    RecordAddsHonestly(rules, s, i, record, at);
    AddingKeepsHonest(mid, AfterRecord(rules, s, i, record, Committed(at)));
  }

  lemma RecordAddsHonestly(rules: Rules, s: State, i: nat, record: RecordAttemptCommand, at: Instant)
    requires SelfKeyed(s.db) && i in s.tasks && WorkerMade(record)
    ensures AddsHonestly(Commit(rules, s, RecordAttempt(record), at), AfterRecord(rules, s, i, record, Committed(at)))
  {
    if ApplyRecordAttempt(s.db, record).Accepted? && !record.outcome.OutcomeRetry? {
      RecordSettles(rules, s.db, record);
    }
  }

  lemma ProposedRecordFits(rules: Rules, s: State, i: nat, at: Instant)
    requires CoreFits(rules, s) && CommandsFit(s) && i in s.tasks && s.tasks[i].phase.Recording?
    ensures RecordFits(s.db, ChangeOf(rules, s.db, LogEntry(RecordAttempt(s.tasks[i].phase.record), at)))
  {
    var entry := LogEntry(RecordAttempt(s.tasks[i].phase.record), at);
    assert PhaseFits(s.tasks[i]);
    if ChangeOf(rules, s.db, entry).Recorded? {
      AcceptedRecord(rules, s.db, entry);
      LoneTask(s.db.executions, s.tasks, s.pending, i, s.tasks - {i});
    }
  }

  /** An event that can happen in an honest state. */
  ghost predicate Proceeds(rules: Rules, s: State, event: Event) {
    Safe(rules, s) && Honest(s) && Enabled(s, event)
  }

  lemma CommittedKeepsHonest(rules: Rules, s: State, event: Event)
    requires Safe(rules, s) && Honest(s) && Enabled(s, event)
    requires IsProposal(event) && event.fate.Committed?
    ensures Honest(Perform(rules, s, event))
  {
    var at := event.fate.at;
    match event
    case RecoverPropose(n, _) => RecoveryCommitKeepsHonest(rules, s, n, WorkerOf(s, n).intent.value, at);
    case TickClaim(n, claim, _, i) => ClaimCommitKeepsHonest(rules, s, n, claim, at, i);
    case ProposeRecord(i, _) => RecordCommitKeepsHonest(rules, s, i, at);
    case ProposeComplete(i, _) => CompleteCommitKeepsHonest(rules, s, i, at);
  }

  lemma ScanKeepsHonest(rules: Rules, s: State, event: Event)
    requires Proceeds(rules, s, event) && event.TickScan?
    ensures Honest(Perform(rules, s, event))
  {
    ScanAddsHonestly(rules, s, event.node, event.tenant, event.now, event.chosen);
    AddingKeepsHonest(s, Perform(rules, s, event));
  }

  lemma ReadingKeepsHonest(rules: Rules, s: State, event: Event)
    requires Proceeds(rules, s, event)
    requires event.RecoverRead? || event.ReadAttempts?
    ensures Honest(Perform(rules, s, event))
  {
    ReadingAddsHonestly(rules, s, event);
    AddingKeepsHonest(s, Perform(rules, s, event));
  }

  lemma QuietKeepsHonest(rules: Rules, s: State, event: Event)
    requires Proceeds(rules, s, event)
    requires IsQuiet(event) && !event.RecoverRead? && !event.ReadAttempts?
    ensures Honest(Perform(rules, s, event))
  {
    QuietAddsHonestly(rules, s, event);
    AddingKeepsHonest(s, Perform(rules, s, event));
  }

  /** Events that commit nothing. */
  lemma StillEventKeepsHonest(rules: Rules, s: State, event: Event)
    requires Proceeds(rules, s, event)
    requires IsQuiet(event) || event.TickScan?
    ensures Honest(Perform(rules, s, event))
  {
    if event.TickScan? {
      ScanKeepsHonest(rules, s, event);
    } else if event.RecoverRead? || event.ReadAttempts? {
      ReadingKeepsHonest(rules, s, event);
    } else {
      QuietKeepsHonest(rules, s, event);
    }
  }

  lemma ProposalKeepsHonest(rules: Rules, s: State, event: Event)
    requires Proceeds(rules, s, event) && IsProposal(event)
    ensures Honest(Perform(rules, s, event))
  {
    if event.fate.Committed? {
      CommittedKeepsHonest(rules, s, event);
    } else {
      UncommittedAddsHonestly(rules, s, event);
      AddingKeepsHonest(s, Perform(rules, s, event));
    }
  }

  lemma UserCommandKeepsHonest(rules: Rules, s: State, entry: LogEntry)
    requires TablesFit(rules, s.db) && Honest(s) && IsUserCommand(entry.command)
    ensures Honest(s.(db := After(rules, s.db, entry)))
  {
    PlainCommitKeepsHonest(rules, s, entry.command, entry.proposedAt);
  }

  lemma EventKeepsHonest(rules: Rules, s: State, event: Event)
    requires Proceeds(rules, s, event)
    ensures Honest(Perform(rules, s, event))
  {
    if event.Decide? {
      DecideKeepsHonest(rules, s, event.entry);
    } else if event.UserCommand? {
      UserCommandKeepsHonest(rules, s, event.entry);
    } else if IsProposal(event) {
      ProposalKeepsHonest(rules, s, event);
    } else {
      StillEventKeepsHonest(rules, s, event);
    }
  }

  // ------------------------------------------------------------------ over every run

  lemma StartIsHonest()
    ensures Honest(START)
  {
  }

  lemma NextIsHonest(rules: Rules, s: State, event: Event)
    requires Safe(rules, s) && Honest(s)
    ensures Honest(Next(rules, s, event))
  {
    if Enabled(s, event) {
      EventKeepsHonest(rules, s, event);
    }
  }

  lemma {:induction false} RunIsHonest(rules: Rules, events: seq<Event>)
    ensures Honest(RunFrom(rules, START, events))
  {
    if events == [] {
      StartIsHonest();
    } else {
      var before := events[..|events| - 1];
      RunIsHonest(rules, before);
      EveryRunIsSafe(rules, before);
      NextIsHonest(rules, RunFrom(rules, START, before), events[|events| - 1]);
    }
  }

  /** Whoever completes it, however stale its reading was and whatever IDs its attempts have: a
      succeeded execution ends with a successful attempt, a terminally failed one with a terminal
      failure, and there is no other end. */
  lemma ExecutionsEndAsTheyEarned(rules: Rules, events: seq<Event>, k: Key)
    requires var db := RunFrom(rules, START, events).db; k in db.executions && IsTerminal(db.executions[k].status)
    ensures var db := RunFrom(rules, START, events).db;
            var success := db.executions[k].status.Succeeded?;
            EndedAs(db.executions[k], success) && Settled(db, k, success)
  {
    RunIsHonest(rules, events);
  }

  /** However long a finalize task waits, the attempts it then reads let it propose a completion if
      and only if the last attempt of its execution has the greatest ID. */
  lemma QueuedFinalizeProposesIff(rules: Rules, events: seq<Event>, i: nat)
    requires var s := RunFrom(rules, START, events); i in s.tasks && s.tasks[i].kind.Finalize?
                                                     && s.tasks[i].phase.Queued?
    ensures var s := RunFrom(rules, START, events);
            var k := TaskKey(s.tasks[i]);
            k in s.db.executions && (FinalizeCommand(k, ListAttempts(s.db, k.0, k.1)).Some?
                                     <==> LastIsGreatest(s.db, k))
  {
    var s := RunFrom(rules, START, events);
    RunIsHonest(rules, events);
    EveryRunIsSafe(rules, events);
    assert TaskIsHonest(s.db, s.tasks[i]);
    FinalizeIsEarned(s.db, TaskKey(s.tasks[i]));
  }
}
