/**
 Executions that can no longer be completed: settled, but with an attempt of greater ID than the
 last.  Finalize tasks and recovery go by the greatest ID, take such an execution for one to be
 retried, and never propose its completion.
 */
module ProtocolStranding {
  import opened Base
  import opened Calendar
  import opened Domain
  import opened Fsm
  import opened Changes
  import opened LogTheorems
  import opened Buckets
  import opened Storage
  import opened Worker
  import opened Protocol
  import opened ProtocolSafety
  import opened ProtocolTheorems
  import opened ProtocolHonesty
  import opened SchedulerRules
  import opened Completions

  /** In flight and settled, behind an attempt of greater ID. */
  ghost predicate Hidden(db: DB, k: Key) {
    && k in db.executions && db.executions[k].status.InFlight?
    && (Settled(db, k, true) || Settled(db, k, false)) && !LastIsGreatest(db, k)
  }

  predicate Completes(command: Command, k: Key) { command.CompleteExecution? && CompleteKey(command.complete) == k }

  /** No task is about to propose a completion of it, no recovery is, and none is in doubt. */
  ghost predicate NoneCompletes(s: State, k: Key) {
    TasksSpare(s.tasks, k) && PendingSpares(s.pending, k) && WorkersSpare(s.workers, k)
  }

  ghost predicate TasksSpare(tasks: map<nat, Task>, k: Key) {
    forall i :: i in tasks && tasks[i].phase.Completing? ==> CompleteKey(tasks[i].phase.complete) != k
  }

  ghost predicate PendingSpares(pending: set<LogEntry>, k: Key) {
    forall p :: p in pending ==> !Completes(p.command, k)
  }

  predicate IntentSpares(w: WorkerState, k: Key) {
    w.Recovering? && w.intent.Some? ==> !Completes(w.intent.value, k)
  }

  ghost predicate WorkersSpare(workers: map<string, WorkerState>, k: Key) {
    forall n :: n in workers ==> IntentSpares(workers[n], k)
  }

  ghost predicate Stranded(s: State, k: Key) { Hidden(s.db, k) && NoneCompletes(s, k) }

  // ------------------------------------------------------------------ nothing new is proposed

  /** Its attempts, read by a finalize task or by recovery, never lead to a completion. */
  lemma HiddenIsNotRead(db: DB, k: Key)
    requires SelfKeyed(db) && AuditTrail(db) && OnlyLastSettles(db) && Hidden(db, k)
    ensures FinalizeCommand(k, ListAttempts(db, k.0, k.1)).None?
    ensures forall now :: ClassifyOne(ListAttempts(db, k.0, k.1), now) != Some(Success)
                       && ClassifyOne(ListAttempts(db, k.0, k.1), now) != Some(TerminalFailure)
  {
    ListTellsSettledIff(db, k, true);
    ListTellsSettledIff(db, k, false);
  }

  lemma IntentSparesHidden(n: string, listed: Execution, bucket: Bucket, k: Key)
    requires (listed.tenantID, listed.id) == k ==> !bucket.Success? && !bucket.TerminalFailure?
    ensures IntentSpares(Recovering(RecoveryCommand(n, listed, bucket)), k)
  {
  }

  lemma WorkerSpares(s: State, n: string, w: WorkerState, k: Key)
    requires NoneCompletes(s, k) && IntentSpares(w, k)
    ensures NoneCompletes(SetWorker(s, n, w), k)
  {
  }

  lemma PhaseSpares(s: State, i: nat, phase: Phase, k: Key)
    requires NoneCompletes(s, k) && i in s.tasks && (phase.Completing? ==> CompleteKey(phase.complete) != k)
    ensures NoneCompletes(SetPhase(s, i, phase), k)
  {
  }

  lemma FinalizeNamesItsExecution(k: Key, list: seq<Attempt>)
    ensures FinalizeCommand(k, list).Some? ==> CompleteKey(FinalizeCommand(k, list).value) == k
  {
  }

  lemma RecoverReadSpares(rules: Rules, s: State, n: string, listed: Execution, now: Instant, k: Key)
    requires TablesFit(rules, s.db) && Stranded(s, k) && Enabled(s, RecoverRead(n, listed, now))
    ensures NoneCompletes(Perform(rules, s, RecoverRead(n, listed, now)), k)
  {
    var bucket := ClassifyOne(ListAttempts(s.db, listed.tenantID, listed.id), now).value;
    HiddenIsNotRead(s.db, k);
    IntentSparesHidden(n, listed, bucket, k);
    WorkerSpares(s, n, Recovering(RecoveryCommand(n, listed, bucket)), k);
  }

  lemma ReadAttemptsSpares(rules: Rules, s: State, i: nat, k: Key)
    requires TablesFit(rules, s.db) && Stranded(s, k) && Enabled(s, ReadAttempts(i))
    ensures NoneCompletes(Perform(rules, s, ReadAttempts(i)), k)
  {
    var j := TaskKey(s.tasks[i]);
    HiddenIsNotRead(s.db, k);
    FinalizeNamesItsExecution(j, ListAttempts(s.db, j.0, j.1));
    PhaseSpares(s, i, Completing(FinalizeCommand(j, ListAttempts(s.db, j.0, j.1)).value), k);
  }

  lemma QuietSpares(rules: Rules, s: State, event: Event, k: Key)
    requires NoneCompletes(s, k) && Enabled(s, event) && IsQuiet(event) && !event.RecoverRead? && !event.ReadAttempts?
    ensures NoneCompletes(Perform(rules, s, event), k)
  {
  }

  lemma ScanSpares(rules: Rules, s: State, event: Event, k: Key)
    requires NoneCompletes(s, k) && Enabled(s, event) && event.TickScan?
    ensures NoneCompletes(Perform(rules, s, event), k)
  {
  }

  /** Nothing is recorded for a settled execution. */
  lemma RecordedElsewhere(rules: Rules, s: State, i: nat, at: Instant, k: Key)
    requires Safe(rules, s) && Hidden(s.db, k) && i in s.tasks && s.tasks[i].phase.Recording?
    requires ApplyRecordAttempt(s.db, s.tasks[i].phase.record).Accepted?
    ensures RecordKey(s.tasks[i].phase.record) != k
  {
    ProposedRecordFits(rules, s, i, at);
    SettledElsewhere(s.db, ChangeOf(rules, s.db, LogEntry(RecordAttempt(s.tasks[i].phase.record), at)), k);
  }

  lemma SettledElsewhere(db: DB, c: Change, k: Key)
    requires Cached(db) && Hidden(db, k) && RecordFits(db, c)
    ensures c.Recorded? ==> c.k != k
  {
    SettledIsNotReceptive(db, k, Settled(db, k, true));
  }

  lemma RecordSpares(rules: Rules, s: State, i: nat, record: RecordAttemptCommand, fate: Fate, k: Key)
    requires NoneCompletes(s, k) && i in s.tasks
    requires fate.Committed? && ApplyRecordAttempt(s.db, record).Accepted? ==> RecordKey(record) != k
    ensures NoneCompletes(AfterRecord(rules, s, i, record, fate), k)
  {
  }

  lemma ProposeRecordSpares(rules: Rules, s: State, i: nat, fate: Fate, k: Key)
    requires Safe(rules, s) && Stranded(s, k) && Enabled(s, ProposeRecord(i, fate))
    ensures NoneCompletes(Perform(rules, s, ProposeRecord(i, fate)), k)
  {
    if fate.Committed? && ApplyRecordAttempt(s.db, s.tasks[i].phase.record).Accepted? {
      RecordedElsewhere(rules, s, i, fate.at, k);
    }
    RecordSpares(rules, s, i, s.tasks[i].phase.record, fate, k);
  }

  lemma OtherProposalSpares(rules: Rules, s: State, event: Event, k: Key)
    requires NoneCompletes(s, k) && Enabled(s, event)
    requires event.RecoverPropose? || event.TickClaim? || event.ProposeComplete? || event.Decide? || event.UserCommand?
    ensures NoneCompletes(Perform(rules, s, event), k)
  {
    if event.RecoverPropose? {
      assert IntentSpares(WorkerOf(s, event.node), k);
    }
  }

  lemma EventSpares(rules: Rules, s: State, event: Event, k: Key)
    requires Safe(rules, s) && Stranded(s, k) && Enabled(s, event)
    ensures NoneCompletes(Perform(rules, s, event), k)
  {
    if event.RecoverRead? {
      RecoverReadSpares(rules, s, event.node, event.listed, event.now, k);
    } else if event.ReadAttempts? {
      ReadAttemptsSpares(rules, s, event.task, k);
    } else if IsQuiet(event) {
      QuietSpares(rules, s, event, k);
    } else if event.TickScan? {
      ScanSpares(rules, s, event, k);
    } else if event.ProposeRecord? {
      ProposeRecordSpares(rules, s, event.task, event.fate, k);
    } else {
      OtherProposalSpares(rules, s, event, k);
    }
  }

  // ------------------------------------------------------------------ nothing ends it

  /** All that can change of it is its owner. */
  ghost predicate Unmoved(db: DB, next: DB, k: Key) {
    && k in db.executions && k in next.executions
    && next.executions[k] == db.executions[k].(ownerNodeID := next.executions[k].ownerNodeID)
    && SameAttempts(db.attempts, next.attempts, k)
  }

  ghost predicate SameAttempts(attempts: map<Key, Attempt>, next: map<Key, Attempt>, k: Key) {
    && (forall a :: a in attempts ==> a in next && next[a] == attempts[a])
    && (forall a :: a in next && ExecutionKeyOf(next[a]) == k ==> a in attempts)
  }

  lemma UnmovedStaysHidden(db: DB, next: DB, k: Key)
    requires SelfKeyed(db) && SelfKeyed(next) && AuditTrail(db) && Hidden(db, k) && Unmoved(db, next, k)
    ensures Hidden(next, k)
  {
    assert LastAttempt(next, k) == LastAttempt(db, k);
    var id :| id in AttemptIds(db, k.0, k.1) && id != db.executions[k].lastAttemptID
              && !Less(id, db.executions[k].lastAttemptID);
    ListedAttempts(db, k, id);
    ListedAttempts(next, k, id);
  }

  lemma ChangeLeavesHidden(rules: Rules, db: DB, c: Change, k: Key)
    requires Cached(db) && Hidden(db, k) && Allowed(rules, db, c) && FreshChange(db, c) && RecordFits(db, c)
    requires c.Finished? ==> c.k != k
    ensures Unmoved(db, Moved(db, c), k)
  {
    SettledElsewhere(db, c, k);
  }

  lemma EntryLeavesHidden(rules: Rules, db: DB, entry: LogEntry, k: Key)
    requires TablesFit(rules, db) && Hidden(db, k) && Fresh(db, entry.command)
             && RecordFits(db, ChangeOf(rules, db, entry))
    requires !Completes(entry.command, k) && !entry.command.FailExecutionTimeout?
    ensures Unmoved(db, After(rules, db, entry), k)
  {
    var c := ChangeOf(rules, db, entry);
    StepIsChange(rules, db, entry);
    FreshIsFreshChange(rules, db, entry);
    if c.Finished? {
      FinishedBy(rules, db, entry);
    }
    ChangeLeavesHidden(rules, db, c, k);
  }

  /** What an event commits records only where an attempt is due, and completes nothing that nobody
      was completing. */
  lemma CommittedFits(rules: Rules, s: State, event: Event, k: Key)
    requires Safe(rules, s) && Honest(s) && NoneCompletes(s, k) && Enabled(s, event) && CommittedEntry(s, event).Some?
    ensures var entry := CommittedEntry(s, event).value;
            && RecordFits(s.db, ChangeOf(rules, s.db, entry))
            && !Completes(entry.command, k) && !entry.command.FailExecutionTimeout?
  {
    var entry := CommittedEntry(s, event).value;
    match event
    case Decide(_) =>
      DecidedIsUnrivalled(rules, s, entry);
      assert CommandIsHonest(s.db, entry.command);
    case RecoverPropose(n, _) =>
      assert IntentSpares(WorkerOf(s, n), k) && WorkerIsHonest(s.db, WorkerOf(s, n));
      NothingRecorded(rules, s.db, entry.command, entry.proposedAt);
    case ProposeRecord(i, _) => ProposedRecordFits(rules, s, i, entry.proposedAt);
    case _ => NothingRecorded(rules, s.db, entry.command, entry.proposedAt);
  }

  lemma EventLeavesHidden(rules: Rules, s: State, event: Event, k: Key)
    requires Safe(rules, s) && Honest(s) && Stranded(s, k) && Enabled(s, event)
    ensures Unmoved(s.db, Perform(rules, s, event).db, k)
  {
    EventCommits(rules, s, event);
    if CommittedEntry(s, event).Some? {
      CommittedFits(rules, s, event, k);
      EntryLeavesHidden(rules, s.db, CommittedEntry(s, event).value, k);
    }
  }

  lemma NextIsStranded(rules: Rules, s: State, event: Event, k: Key)
    requires Safe(rules, s) && Honest(s) && Stranded(s, k)
    ensures Stranded(Next(rules, s, event), k) && Unmoved(s.db, Next(rules, s, event).db, k)
  {
    if Enabled(s, event) {
      EventSpares(rules, s, event, k);
      EventLeavesHidden(rules, s, event, k);
      EventKeepsSafe(rules, s, event);
      UnmovedStaysHidden(s.db, Perform(rules, s, event).db, k);
    }
  }

  // ------------------------------------------------------------------ over every run

  lemma UnmovedTwice(db: DB, mid: DB, next: DB, k: Key)
    requires Unmoved(db, mid, k) && Unmoved(mid, next, k)
    ensures Unmoved(db, next, k)
  {
  }

  lemma {:induction false} StrandedFrom(rules: Rules, s: State, more: seq<Event>, k: Key)
    requires Safe(rules, s) && Honest(s) && Stranded(s, k)
    ensures var after := RunFrom(rules, s, more);
            Safe(rules, after) && Honest(after) && Stranded(after, k) && Unmoved(s.db, after.db, k)
  {
    if more != [] {
      var before, event := more[..|more| - 1], more[|more| - 1];
      StrandedFrom(rules, s, before, k);
      var mid := RunFrom(rules, s, before);
      NextIsStranded(rules, mid, event, k);
      NextIsHonest(rules, mid, event);
      EventKeepsSafe(rules, mid, event);
      UnmovedTwice(s.db, mid.db, Next(rules, mid, event).db, k);
    }
  }

  /** In every run, once a settled execution in flight has an attempt of greater ID than its last and
      nobody is completing it, it stays in flight in every further run, with the attempts it has:
      whoever recovers it can only become its owner. */
  lemma StrandedForever(rules: Rules, events: seq<Event>, more: seq<Event>, k: Key)
    requires Stranded(RunFrom(rules, START, events), k)
    ensures var s, after := RunFrom(rules, START, events), RunFrom(rules, RunFrom(rules, START, events), more);
            Unmoved(s.db, after.db, k) && after.db.executions[k].status.InFlight? && Stranded(after, k)
  {
    EveryRunIsSafe(rules, events);
    RunIsHonest(rules, events);
    StrandedFrom(rules, RunFrom(rules, START, events), more, k);
  }

  /** The completion an actor holds for an execution, if it is one. */
  ghost predicate HeldBy(s: State, actor: Actor, complete: CompleteExecutionCommand) {
    match actor
    case ATask(i) => i in s.tasks && s.tasks[i].phase == Completing(complete)
    case ARecovery(n) => WorkerOf(s, n) == Recovering(Some(CompleteExecution(complete)))
    case ADoubt(at) => LogEntry(CompleteExecution(complete), at) in s.pending
  }

  datatype Actor = ATask(task: nat) | ARecovery(node: string) | ADoubt(at: Instant)

  lemma SomeoneCompletes(s: State, k: Key) returns (actor: Actor, complete: CompleteExecutionCommand)
    requires !NoneCompletes(s, k)
    ensures HeldBy(s, actor, complete) && CompleteKey(complete) == k
  {
    if i :| i in s.tasks && s.tasks[i].phase.Completing? && CompleteKey(s.tasks[i].phase.complete) == k {
      actor, complete := ATask(i), s.tasks[i].phase.complete;
    } else if p :| p in s.pending && Completes(p.command, k) {
      actor, complete := ADoubt(p.proposedAt), p.command.complete;
    } else {
      var n :| n in s.workers && !IntentSpares(s.workers[n], k);
      actor, complete := ARecovery(n), s.workers[n].intent.value.complete;
    }
  }

  /** What it holds can still commit, once no other node leads. */
  lemma HeldMayCommit(rules: Rules, s: State, actor: Actor, complete: CompleteExecutionCommand, at: Instant)
      returns (event: Event)
    requires HeldBy(s, actor, complete) && s.leader.None?
    ensures Enabled(s, event) && exists when :: Perform(rules, s, event).db
                                                == After(rules, s.db, LogEntry(CompleteExecution(complete), when))
  {
    match actor
    case ATask(i) =>
      event := ProposeComplete(i, Committed(at));
      assert Perform(rules, s, event).db == After(rules, s.db, LogEntry(CompleteExecution(complete), at));
    case ARecovery(n) =>
      event := RecoverPropose(n, Committed(at));
      assert Perform(rules, s, event).db == After(rules, s.db, LogEntry(CompleteExecution(complete), at));
    case ADoubt(when) =>
      event := Decide(LogEntry(CompleteExecution(complete), when));
      assert Perform(rules, s, event).db == After(rules, s.db, LogEntry(CompleteExecution(complete), when));
  }

  ghost predicate InFlightAfter(rules: Rules, s: State, k: Key, more: seq<Event>) {
    var executions := RunFrom(rules, s, more).db.executions; k in executions && executions[k].status.InFlight?
  }

  lemma CompletionEndsIt(rules: Rules, db: DB, k: Key, success: bool, at: Instant)
    requires SelfKeyed(db) && k in db.executions && Completable(rules, db, k)
    ensures var executions := After(rules, db, LogEntry(CompleteExecution(CompleteAs(k, success)), at)).executions;
            k in executions && !executions[k].status.InFlight?
  {
    StepIsChange(rules, db, LogEntry(CompleteExecution(CompleteAs(k, success)), at));
  }

  lemma HeldIsEarned(s: State, actor: Actor, complete: CompleteExecutionCommand)
    requires Honest(s) && HeldBy(s, actor, complete)
    ensures Earned(s.db, complete)
  {
    match actor
    case ATask(i) => assert TaskIsHonest(s.db, s.tasks[i]);
    case ARecovery(n) => assert WorkerIsHonest(s.db, s.workers[n]);
    case ADoubt(at) => assert CommandIsHonest(s.db, LogEntry(CompleteExecution(complete), at).command);
  }

  lemma OneEvent(rules: Rules, s: State, a: Event)
    ensures RunFrom(rules, s, [a]) == Next(rules, s, a)
  {
    assert [a][..0] == [] && RunFrom(rules, s, []) == s;
  }

  lemma TwoEvents(rules: Rules, s: State, a: Event, b: Event)
    ensures RunFrom(rules, s, [a, b]) == Next(rules, Next(rules, s, a), b)
  {
    assert [a, b][..1] == [a];
    OneEvent(rules, s, a);
  }

  lemma FreeCompletionEnds(rules: Rules, s: State, k: Key, actor: Actor, complete: CompleteExecutionCommand)
      returns (event: Event)
    requires SelfKeyed(s.db) && k in s.db.executions && Completable(rules, s.db, k) && s.leader.None?
    requires HeldBy(s, actor, complete) && complete == CompleteAs(k, complete.finalStatus.Succeeded?)
    ensures var executions := Next(rules, s, event).db.executions; k in executions && !executions[k].status.InFlight?
  {
    event := HeldMayCommit(rules, s, actor, complete, 0);
    var at :| Perform(rules, s, event).db == After(rules, s.db, LogEntry(CompleteExecution(complete), at));
    CompletionEndsIt(rules, s.db, k, complete.finalStatus.Succeeded?, at);
  }

  lemma HeldCompletionEnds(rules: Rules, s: State, k: Key) returns (more: seq<Event>)
    requires SelfKeyed(s.db) && Honest(s) && k in s.db.executions && Completable(rules, s.db, k) && !NoneCompletes(s, k)
    ensures !InFlightAfter(rules, s, k, more)
  {
    var actor, complete := SomeoneCompletes(s, k);
    HeldIsEarned(s, actor, complete);
    var free := s.(leader := None);
    var event := FreeCompletionEnds(rules, free, k, actor, complete);
    more := [StepDown, event];
    TwoEvents(rules, s, StepDown, event);
    assert Next(rules, s, StepDown) == free;
  }

  lemma StrandedUnderRules(rules: Rules, events: seq<Event>, k: Key)
    requires ComputesAgain(rules) && Hidden(RunFrom(rules, START, events).db, k)
    ensures var s := RunFrom(rules, START, events);
            (forall more :: InFlightAfter(rules, s, k, more)) <==> NoneCompletes(s, k)
  {
    var s := RunFrom(rules, START, events);
    if NoneCompletes(s, k) {
      forall more ensures InFlightAfter(rules, s, k, more) { StrandedForever(rules, events, more, k); }
    } else {
      EveryRunIsSafe(rules, events);
      RunIsHonest(rules, events);
      InFlightIsCompletable(rules, events, k);
      var more := HeldCompletionEnds(rules, s, k);
    }
  }

  /** In every run, a settled execution in flight behind an attempt of greater ID stays in flight in
      every further run if and only if nobody is completing it by now. */
  lemma StrandedForeverIff(events: seq<Event>, k: Key)
    requires Hidden(RunFrom(RULES, START, events).db, k)
    ensures var s := RunFrom(RULES, START, events);
            (forall more :: InFlightAfter(RULES, s, k, more)) <==> NoneCompletes(s, k)
  {
    RulesComputeAgain();
    StrandedUnderRules(RULES, events, k);
  }
}
