/**
 Safety of the dispatch protocol in every interleaving: an execution has at most one live
 recorder under its owner, so nothing is ever recorded after a success or a terminal failure.
 */
module ProtocolSafety {
  import opened Base
  import opened Calendar
  import opened Domain
  import opened Fsm
  import opened Changes
  import opened LogTheorems
  import opened Storage
  import opened Worker
  import opened Protocol

  // ------------------------------------------------------------------ recorders

  /** A task that may still record an attempt. */
  predicate IsRecorder(t: Task) { !t.kind.Finalize? && !t.phase.Completing? }

  predicate RecordsFor(entry: LogEntry, node: string, k: Key) {
    entry.command.RecordAttempt? && entry.command.record.nodeID == node && RecordKey(entry.command.record) == k
  }

  function RecordKey(cmd: RecordAttemptCommand): Key { (cmd.tenantID, cmd.executionID) }

  /** The node owns the execution, so that its records would be accepted. */
  predicate Owns(executions: map<Key, Execution>, node: string, k: Key) {
    k in executions && executions[k].status.InFlight? && executions[k].ownerNodeID == node
  }

  /** No attempt yet, or the last one is to be retried. */
  predicate Receptive(e: Execution) { e.attemptCount == 0 || e.lastRetryAt.Some? }

  /** A recorder of the owner has an accurate snapshot of an execution that still needs an
      attempt. */
  ghost predicate TasksFit(executions: map<Key, Execution>, tasks: map<nat, Task>) {
    forall i :: i in tasks && IsRecorder(tasks[i]) ==>
      && TaskKey(tasks[i]) in executions
      && (Owns(executions, tasks[i].node, TaskKey(tasks[i])) ==>
            && Receptive(executions[TaskKey(tasks[i])])
            && executions[TaskKey(tasks[i])].attemptCount == tasks[i].exec.attemptCount)
  }

  ghost predicate PendingFits(executions: map<Key, Execution>, pending: set<LogEntry>) {
    forall p, node, k :: p in pending && RecordsFor(p, node, k) ==>
      k in executions && (Owns(executions, node, k) ==> Receptive(executions[k]))
  }

  /** The owner has at most one recorder, running or in doubt. */
  ghost predicate TasksAlone(executions: map<Key, Execution>, tasks: map<nat, Task>) {
    forall i, j :: (i in tasks && j in tasks && IsRecorder(tasks[i]) && IsRecorder(tasks[j])
                    && tasks[i].node == tasks[j].node && TaskKey(tasks[i]) == TaskKey(tasks[j])
                    && Owns(executions, tasks[i].node, TaskKey(tasks[i]))) ==> i == j
  }

  ghost predicate NoneInDoubt(pending: set<LogEntry>, node: string, k: Key) {
    forall p :: p in pending ==> !RecordsFor(p, node, k)
  }

  ghost predicate TasksOrDoubt(executions: map<Key, Execution>, tasks: map<nat, Task>, pending: set<LogEntry>) {
    forall i :: i in tasks && IsRecorder(tasks[i]) && Owns(executions, tasks[i].node, TaskKey(tasks[i])) ==>
      NoneInDoubt(pending, tasks[i].node, TaskKey(tasks[i]))
  }

  ghost predicate DoubtAlone(executions: map<Key, Execution>, pending: set<LogEntry>) {
    forall p, q, node, k ::
      (p in pending && q in pending && RecordsFor(p, node, k) && RecordsFor(q, node, k)
       && Owns(executions, node, k)) ==> p == q
  }

  ghost predicate RecordersFit(executions: map<Key, Execution>, tasks: map<nat, Task>, pending: set<LogEntry>) {
    && TasksFit(executions, tasks) && PendingFits(executions, pending)
    && TasksAlone(executions, tasks) && TasksOrDoubt(executions, tasks, pending) && DoubtAlone(executions, pending)
  }

  /** Fewer tasks, tasks further on, fewer entries in doubt. */
  ghost predicate Fewer(tasks: map<nat, Task>, before: map<nat, Task>) {
    forall i :: i in tasks && IsRecorder(tasks[i]) ==>
      i in before && IsRecorder(before[i]) && tasks[i].node == before[i].node && tasks[i].exec == before[i].exec
  }

  lemma FewerRecorders(executions: map<Key, Execution>, tasks: map<nat, Task>, pending: set<LogEntry>,
                       before: map<nat, Task>, pendingBefore: set<LogEntry>)
    requires RecordersFit(executions, before, pendingBefore) && Fewer(tasks, before)
    requires forall p :: p in pending && p.command.RecordAttempt? ==> p in pendingBefore
    ensures RecordersFit(executions, tasks, pending)
  {
    forall i | i in tasks && IsRecorder(tasks[i]) && Owns(executions, tasks[i].node, TaskKey(tasks[i]))
      ensures NoneInDoubt(pending, tasks[i].node, TaskKey(tasks[i]))
    {
      assert NoneInDoubt(pendingBefore, before[i].node, TaskKey(before[i]));
    }
  }

  /** No recorder of this node for this execution. */
  ghost predicate NoRecorder(tasks: map<nat, Task>, pending: set<LogEntry>, node: string, k: Key) {
    && (forall i :: i in tasks && IsRecorder(tasks[i]) ==> !(tasks[i].node == node && TaskKey(tasks[i]) == k))
    && NoneInDoubt(pending, node, k)
  }

  /** The nodes that could start or keep recording because of a change must have no recorder. */
  ghost predicate Unrivalled(tasks: map<nat, Task>, pending: set<LogEntry>, c: Change) {
    match c
    case Adopted(k, owner) => NoRecorder(tasks, pending, owner, k)
    case Recorded(k, a, _) => NoRecorder(tasks, pending, a.nodeID, k)
    case _ => true
  }

  /** A change leaves an execution alone, or takes it from every recorder it had. */
  lemma ChangeAtRecorder(rules: Rules, db: DB, c: Change, tasks: map<nat, Task>, pending: set<LogEntry>, node: string,
                         k: Key)
    requires Allowed(rules, db, c) && FreshChange(db, c) && Unrivalled(tasks, pending, c) && k in db.executions
    ensures var next := ExecutionsAfter(db.executions, c);
            k in next && (Owns(next, node, k) ==> (Owns(db.executions, node, k) && next[k] == db.executions[k])
                                                  || NoRecorder(tasks, pending, node, k))
  {
  }

  lemma ChangeKeepsTasksFit(rules: Rules, db: DB, c: Change, tasks: map<nat, Task>, pending: set<LogEntry>)
    requires RecordersFit(db.executions, tasks, pending)
    requires Allowed(rules, db, c) && FreshChange(db, c) && Unrivalled(tasks, pending, c)
    ensures TasksFit(ExecutionsAfter(db.executions, c), tasks) && TasksAlone(ExecutionsAfter(db.executions, c), tasks)
    ensures TasksOrDoubt(ExecutionsAfter(db.executions, c), tasks, pending)
  {
    forall i | i in tasks && IsRecorder(tasks[i])
      ensures var next, k := ExecutionsAfter(db.executions, c), TaskKey(tasks[i]);
              k in next && (Owns(next, tasks[i].node, k) ==>
                            Owns(db.executions, tasks[i].node, k) && next[k] == db.executions[k])
    {
      ChangeAtRecorder(rules, db, c, tasks, pending, tasks[i].node, TaskKey(tasks[i]));
    }
  }

  lemma ChangeKeepsPendingFits(rules: Rules, db: DB, c: Change, tasks: map<nat, Task>, pending: set<LogEntry>)
    requires RecordersFit(db.executions, tasks, pending)
    requires Allowed(rules, db, c) && FreshChange(db, c) && Unrivalled(tasks, pending, c)
    ensures PendingFits(ExecutionsAfter(db.executions, c), pending)
            && DoubtAlone(ExecutionsAfter(db.executions, c), pending)
  {
    forall p, node, k | p in pending && RecordsFor(p, node, k)
      ensures var next := ExecutionsAfter(db.executions, c);
              k in next && (Owns(next, node, k) ==> Owns(db.executions, node, k) && next[k] == db.executions[k])
    {
      ChangeAtRecorder(rules, db, c, tasks, pending, node, k);
    }
  }

  lemma ChangeKeepsRecorders(rules: Rules, db: DB, c: Change, tasks: map<nat, Task>, pending: set<LogEntry>)
    requires RecordersFit(db.executions, tasks, pending)
    requires Allowed(rules, db, c) && FreshChange(db, c) && Unrivalled(tasks, pending, c)
    ensures RecordersFit(ExecutionsAfter(db.executions, c), tasks, pending)
  {
    ChangeKeepsTasksFit(rules, db, c, tasks, pending);
    ChangeKeepsPendingFits(rules, db, c, tasks, pending);
  }

  // ------------------------------------------------------------------ history

  ghost predicate History(db: DB) { OnlyLastSettles(db) && Cached(db) }

  /** A recorded attempt is one a worker makes, on an execution that still needs one. */
  ghost predicate RecordFits(db: DB, c: Change) {
    c.Recorded? ==>
      && c.k in db.executions && Receptive(db.executions[c.k])
      && (c.attempt.outcome.OutcomeSuccess? || c.attempt.outcome.OutcomeRetry?
          || c.attempt.outcome.OutcomeTerminalFailure?)
      && (c.retryAt.Some? <==> c.attempt.outcome.OutcomeRetry?)
  }

  ghost function Moved(db: DB, c: Change): DB {
    db.(executions := ExecutionsAfter(db.executions, c), attempts := AttemptsAfter(db.attempts, c))
  }

  /** What was the last attempt when another is recorded was to be retried. */
  lemma PreviousWasRetry(rules: Rules, db: DB, c: Change, a: Key)
    requires SelfKeyed(db) && AuditTrail(db) && History(db) && c.Recorded? && Allowed(rules, db, c) && RecordFits(db, c)
    requires a in db.attempts && ExecutionKeyOf(db.attempts[a]) == c.k
    ensures db.attempts[a].outcome.OutcomeRetry?
  {
    if db.attempts[a].attemptNumber == db.executions[c.k].attemptCount {
      assert CachedAt(db.executions[c.k], LastAttempt(db, c.k));
      assert a == (c.k.0, db.executions[c.k].lastAttemptID);
    }
  }

  lemma RecordKeepsRetry(rules: Rules, db: DB, c: Change, a: Key)
    requires SelfKeyed(db) && AuditTrail(db) && History(db) && c.Recorded? && Allowed(rules, db, c) && RecordFits(db, c)
    requires a in db.attempts
    ensures RetryUnlessLast(ExecutionsAfter(db.executions, c), db.attempts[a])
  {
    if ExecutionKeyOf(db.attempts[a]) == c.k {
      PreviousWasRetry(rules, db, c, a);
    }
  }

  lemma RecordKeepsOnlyLast(rules: Rules, db: DB, c: Change)
    requires SelfKeyed(db) && AuditTrail(db) && History(db)
    requires c.Recorded? && Allowed(rules, db, c) && FreshChange(db, c) && RecordFits(db, c)
    ensures OnlyLastSettles(Moved(db, c))
  {
    forall a | a in db.attempts
      ensures RetryUnlessLast(ExecutionsAfter(db.executions, c), db.attempts[a])
    {
      RecordKeepsRetry(rules, db, c, a);
    }
  }

  lemma CachedElsewhere(db: DB, c: Change, k: Key)
    requires SelfKeyed(db) && AuditTrail(db) && FreshChange(db, c) && k in db.executions && (c.Recorded? ==> c.k != k)
    requires CachedAt(db.executions[k], LastAttempt(db, k))
    requires k in Moved(db, c).executions && db.executions[k].attemptCount == Moved(db, c).executions[k].attemptCount
    requires db.executions[k].lastAttemptID == Moved(db, c).executions[k].lastAttemptID
    requires db.executions[k].lastRetryAt == Moved(db, c).executions[k].lastRetryAt
    ensures CachedAt(Moved(db, c).executions[k], LastAttempt(Moved(db, c), k))
  {
    if db.executions[k].attemptCount > 0 {
      assert (k.0, db.executions[k].lastAttemptID) in db.attempts;
      assert LastAttempt(Moved(db, c), k) == LastAttempt(db, k);
    }
  }

  lemma CachedAfterRecord(rules: Rules, db: DB, c: Change)
    requires c.Recorded? && Allowed(rules, db, c) && RecordFits(db, c)
    ensures CachedAt(Moved(db, c).executions[c.k], LastAttempt(Moved(db, c), c.k))
  {
  }

  /** The fields the cache consists of, at an execution no attempt is recorded for. */
  lemma ChangeElsewhere(rules: Rules, db: DB, c: Change, k: Key)
    requires Allowed(rules, db, c) && FreshChange(db, c) && k in db.executions && !(c.Recorded? && c.k == k)
    ensures var e, next := db.executions[k], ExecutionsAfter(db.executions, c);
            k in next && next[k].attemptCount == e.attemptCount && next[k].lastAttemptID == e.lastAttemptID
            && next[k].lastRetryAt == e.lastRetryAt
  {
  }

  lemma CachedAfterChange(rules: Rules, db: DB, c: Change, k: Key)
    requires SelfKeyed(db) && AuditTrail(db) && Cached(db) && k in Moved(db, c).executions
    requires Allowed(rules, db, c) && FreshChange(db, c) && RecordFits(db, c)
    ensures CachedAt(Moved(db, c).executions[k], LastAttempt(Moved(db, c), k))
  {
    if k in db.executions {
      assert CachedAt(db.executions[k], LastAttempt(db, k));
      if c.Recorded? && c.k == k {
        CachedAfterRecord(rules, db, c);
      } else {
        ChangeElsewhere(rules, db, c, k);
        CachedElsewhere(db, c, k);
      }
    }
  }

  lemma ChangeKeepsCached(rules: Rules, db: DB, c: Change)
    requires Consistent(rules, db) && AuditTrail(db) && History(db)
    requires Allowed(rules, db, c) && FreshChange(db, c) && RecordFits(db, c)
    ensures Cached(Moved(db, c))
  {
    forall k | k in Moved(db, c).executions
      ensures CachedAt(Moved(db, c).executions[k], LastAttempt(Moved(db, c), k))
    {
      CachedAfterChange(rules, db, c, k);
    }
  }

  lemma OtherChangeKeepsOnlyLast(rules: Rules, db: DB, c: Change)
    requires OnlyLastSettles(db) && !c.Recorded? && Allowed(rules, db, c) && FreshChange(db, c)
    ensures OnlyLastSettles(Moved(db, c))
  {
    var next := Moved(db, c);
    forall a | a in next.attempts
      ensures var k := ExecutionKeyOf(next.attempts[a]);
              k in next.executions && (next.attempts[a].attemptNumber < next.executions[k].attemptCount ==>
                                       next.attempts[a].outcome.OutcomeRetry?)
    {
      ChangeElsewhere(rules, db, c, ExecutionKeyOf(db.attempts[a]));
    }
  }

  lemma ChangeKeepsOnlyLast(rules: Rules, db: DB, c: Change)
    requires Consistent(rules, db) && AuditTrail(db) && History(db)
    requires Allowed(rules, db, c) && FreshChange(db, c) && RecordFits(db, c)
    ensures OnlyLastSettles(Moved(db, c))
  {
    if c.Recorded? {
      RecordKeepsOnlyLast(rules, db, c);
    } else {
      OtherChangeKeepsOnlyLast(rules, db, c);
    }
  }

  // ------------------------------------------------------------------ tables

  ghost predicate TablesFit(rules: Rules, db: DB) {
    Consistent(rules, db) && Audited(db) && History(db)
  }

  lemma HistoryOfTables(db: DB, other: DB)
    requires History(db) && db.executions == other.executions && db.attempts == other.attempts
    ensures History(other)
  {
    forall k | k in other.executions
      ensures CachedAt(other.executions[k], LastAttempt(other, k))
    {
      assert CachedAt(db.executions[k], LastAttempt(db, k));
    }
  }

  lemma CommitKeepsTables(rules: Rules, db: DB, entry: LogEntry)
    requires TablesFit(rules, db) && Fresh(db, entry.command) && RecordFits(db, ChangeOf(rules, db, entry))
    ensures TablesFit(rules, After(rules, db, entry))
  {
    var c := ChangeOf(rules, db, entry);
    StepKeepsConsistent(rules, db, entry);
    StepKeepsAudited(rules, db, entry);
    StepIsChange(rules, db, entry);
    FreshIsFreshChange(rules, db, entry);
    ChangeKeepsOnlyLast(rules, db, c);
    ChangeKeepsCached(rules, db, c);
    HistoryOfTables(Moved(db, c), After(rules, db, entry));
  }

  lemma CommitKeepsRecorders(rules: Rules, db: DB, entry: LogEntry, tasks: map<nat, Task>, pending: set<LogEntry>)
    requires TablesFit(rules, db) && Fresh(db, entry.command) && RecordersFit(db.executions, tasks, pending)
    requires Unrivalled(tasks, pending, ChangeOf(rules, db, entry))
    ensures RecordersFit(After(rules, db, entry).executions, tasks, pending)
  {
    StepIsChange(rules, db, entry);
    FreshIsFreshChange(rules, db, entry);
    ChangeKeepsRecorders(rules, db, ChangeOf(rules, db, entry), tasks, pending);
  }

  // ------------------------------------------------------------------ roles

  /** Only a worker that has recovered has tasks, and only until it is joined. */
  ghost predicate TasksHaveWorkers(s: State) {
    forall i :: i in s.tasks ==>
      && (WorkerOf(s, s.tasks[i].node).Running? || WorkerOf(s, s.tasks[i].node).Stopping?)
      && (s.tasks[i].kind.Retry? && WorkerOf(s, s.tasks[i].node).Running? ==>
            s.tasks[i].exec.tenantID in WorkerOf(s, s.tasks[i].node).scanned)
  }

  ghost predicate NoRecordInDoubt(pending: set<LogEntry>, node: string) {
    forall p :: p in pending && p.command.RecordAttempt? ==> p.command.record.nodeID != node
  }

  /** A worker whose adoption is in doubt has gone, and left no record in doubt. */
  ghost predicate AdoptionsFit(s: State) {
    forall p :: p in s.pending && p.command.AdoptExecution? ==>
      WorkerOf(s, p.command.adopt.newOwner).Idle? && NoRecordInDoubt(s.pending, p.command.adopt.newOwner)
  }

  ghost predicate IntentFits(intent: Option<Command>, node: string) {
    intent.Some? ==> intent.value.CompleteExecution?
                     || (intent.value.AdoptExecution? && intent.value.adopt.newOwner == node)
  }

  ghost predicate RecoveriesFit(s: State) {
    forall n :: n in s.workers && s.workers[n].Recovering? ==>
      NoRecordInDoubt(s.pending, n) && IntentFits(s.workers[n].intent, n)
  }

  ghost predicate RolesFit(s: State) {
    && (s.leader.Some? ==> s.pending == {})
    && TasksHaveWorkers(s) && AdoptionsFit(s) && RecoveriesFit(s)
  }

  ghost predicate PhaseFits(t: Task) {
    && (t.kind.FreshFire? ==> t.exec.attemptCount == 0)
    && (t.phase.Calling? ==> !t.kind.Finalize? && t.phase.schedule.tenantID == t.exec.tenantID)
    && (t.phase.Recording? ==>
          && !t.kind.Finalize? && WorkerMade(t.phase.record)
          && RecordKey(t.phase.record) == TaskKey(t) && t.phase.record.nodeID == t.node)
  }

  ghost predicate EntryFits(p: LogEntry) {
    || p.command.ClaimExecution? || p.command.AdoptExecution? || p.command.CompleteExecution?
    || (p.command.RecordAttempt? && WorkerMade(p.command.record))
  }

  ghost predicate CommandsFit(s: State) {
    && (forall i :: i in s.tasks ==> PhaseFits(s.tasks[i]))
    && (forall p :: p in s.pending ==> EntryFits(p))
  }

  ghost predicate NoAdoptionInDoubt(pending: set<LogEntry>, node: string) {
    forall p :: p in pending && p.command.AdoptExecution? ==> p.command.adopt.newOwner != node
  }

  // ------------------------------------------------------------------ roles, step by step

  /** The node's tasks are ones a worker in this state may have. */
  ghost predicate MayHaveTasks(tasks: map<nat, Task>, node: string, w: WorkerState) {
    forall i :: i in tasks && tasks[i].node == node ==>
      && (w.Running? || w.Stopping?)
      && (tasks[i].kind.Retry? && w.Running? ==> tasks[i].exec.tenantID in w.scanned)
  }

  ghost predicate MayBecome(s: State, n: string, w: WorkerState) {
    && MayHaveTasks(s.tasks, n, w)
    && (w.Idle? || NoAdoptionInDoubt(s.pending, n))
    && (w.Recovering? ==> NoRecordInDoubt(s.pending, n) && IntentFits(w.intent, n))
  }

  lemma SetWorkerKeepsRoles(s: State, n: string, w: WorkerState)
    requires RolesFit(s) && MayBecome(s, n, w)
    ensures RolesFit(SetWorker(s, n, w))
  {
    var next := SetWorker(s, n, w);
    assert forall m :: m != n ==> WorkerOf(next, m) == WorkerOf(s, m);
  }

  lemma WorkerMayStay(s: State, n: string)
    requires RolesFit(s)
    ensures MayHaveTasks(s.tasks, n, WorkerOf(s, n))
    ensures !WorkerOf(s, n).Idle? ==> NoAdoptionInDoubt(s.pending, n)
    ensures WorkerOf(s, n).Recovering? ==> NoRecordInDoubt(s.pending, n) && IntentFits(WorkerOf(s, n).intent, n)
  {
  }

  /** Tasks end or move on. */
  ghost predicate SameTasks(tasks: map<nat, Task>, before: map<nat, Task>) {
    forall i :: i in tasks ==>
      i in before && tasks[i].node == before[i].node && tasks[i].kind == before[i].kind
          && tasks[i].exec == before[i].exec
  }

  lemma TasksKeepRoles(s: State, tasks: map<nat, Task>)
    requires RolesFit(s) && SameTasks(tasks, s.tasks)
    ensures RolesFit(s.(tasks := tasks))
  {
    var next := s.(tasks := tasks);
    assert forall n :: WorkerOf(next, n) == WorkerOf(s, n);
  }

  lemma FewerPendingKeepsRoles(s: State, leader: Option<string>, pending: set<LogEntry>)
    requires RolesFit(s) && pending <= s.pending && (leader.Some? ==> pending == {})
    ensures RolesFit(s.(leader := leader, pending := pending))
  {
    var next := s.(leader := leader, pending := pending);
    assert forall n :: WorkerOf(next, n) == WorkerOf(s, n);
  }

  /** An entry a node leaves in doubt while its worker is up, or when its recovery gives up. */
  ghost predicate MayDoubt(s: State, command: Command) {
    match command
    case RecordAttempt(cmd) => WorkerOf(s, cmd.nodeID).Running? || WorkerOf(s, cmd.nodeID).Stopping?
    case AdoptExecution(cmd) => WorkerOf(s, cmd.newOwner).Idle? && NoRecordInDoubt(s.pending, cmd.newOwner)
    case ClaimExecution(_) => true
    case CompleteExecution(_) => true
    case _ => false
  }

  lemma DoubtKeepsRoles(s: State, command: Command, at: Instant)
    requires RolesFit(s) && MayDoubt(s, command)
    ensures RolesFit(Doubt(s, command, at))
  {
    var next := Doubt(s, command, at);
    assert forall n :: WorkerOf(next, n) == WorkerOf(s, n);
  }

  lemma DbKeepsRoles(s: State, db: DB)
    requires RolesFit(s)
    ensures RolesFit(s.(db := db))
  {
    var next := s.(db := db);
    assert forall n :: WorkerOf(next, n) == WorkerOf(s, n);
  }

  lemma SightingsKeepRoles(s: State, seen: set<(string, Key, Instant)>)
    requires RolesFit(s)
    ensures RolesFit(s.(sightings := seen))
  {
    var next := s.(sightings := seen);
    assert forall n :: WorkerOf(next, n) == WorkerOf(s, n);
  }

  lemma CrashKeepsRoles(s: State, n: string)
    requires RolesFit(s)
    ensures RolesFit(s.(leader := if Leads(s, n) then None else s.leader,
                        workers := s.workers[n := Idle], tasks := EndTasksOf(s.tasks, n)))
  {
    var quiet := s.(tasks := EndTasksOf(s.tasks, n));
    TasksKeepRoles(s, EndTasksOf(s.tasks, n));
    SetWorkerKeepsRoles(quiet, n, Idle);
    var idle := SetWorker(quiet, n, Idle);
    FewerPendingKeepsRoles(idle, if Leads(s, n) then None else s.leader, s.pending);
  }

  lemma LeadershipKeepsRoles(rules: Rules, s: State, event: Event)
    requires RolesFit(s) && Enabled(s, event)
             && (event.Elect? || event.StepDown? || event.Crash? || event.Decide? || event.UserCommand?)
    ensures RolesFit(Perform(rules, s, event))
  {
    match event
    case Elect(n) => FewerPendingKeepsRoles(s, Some(n), {});
    case StepDown => FewerPendingKeepsRoles(s, None, s.pending);
    case Crash(n) => CrashKeepsRoles(s, n);
    case Decide(entry) =>
      FewerPendingKeepsRoles(s, s.leader, s.pending - {entry});
      DbKeepsRoles(s.(pending := s.pending - {entry}), After(rules, s.db, entry));
    case UserCommand(entry) => DbKeepsRoles(s, After(rules, s.db, entry));
  }

  lemma RecoveryKeepsRoles(rules: Rules, s: State, event: Event)
    requires RolesFit(s) && Enabled(s, event)
             && (event.BeginRecovery? || event.RecoverRead? || event.RecoverFail? || event.RecoverDone?)
    ensures RolesFit(Perform(rules, s, event))
  {
    WorkerMayStay(s, event.node);
    match event
    case BeginRecovery(n) => SetWorkerKeepsRoles(s, n, Recovering(None));
    case RecoverRead(n, listed, now) =>
      var bucket := ClassifyOne(ListAttempts(s.db, listed.tenantID, listed.id), now).value;
      SetWorkerKeepsRoles(s, n, Recovering(RecoveryCommand(n, listed, bucket)));
    case RecoverFail(n) => SetWorkerKeepsRoles(s, n, Idle);
    case RecoverDone(n) => SetWorkerKeepsRoles(s, n, Running({}));
  }

  lemma RecoverProposeKeepsRoles(rules: Rules, s: State, n: string, fate: Fate)
    requires RolesFit(s) && Enabled(s, RecoverPropose(n, fate))
    ensures RolesFit(Perform(rules, s, RecoverPropose(n, fate)))
  {
    WorkerMayStay(s, n);
    var intent := WorkerOf(s, n).intent.value;
    match fate
    case Committed(at) =>
      SetWorkerKeepsRoles(s, n, Recovering(None));
      DbKeepsRoles(SetWorker(s, n, Recovering(None)), After(rules, s.db, LogEntry(intent, at)));
    case InDoubt(at) =>
      SetWorkerKeepsRoles(s, n, Idle);
      DoubtKeepsRoles(SetWorker(s, n, Idle), intent, at);
    case Lost => SetWorkerKeepsRoles(s, n, Idle);
  }

  lemma TickKeepsRoles(rules: Rules, s: State, event: Event)
    requires RolesFit(s) && Enabled(s, event) && (event.BeginTick? || event.ReadDue? || event.Stop? || event.Join?)
    ensures RolesFit(Perform(rules, s, event))
  {
    WorkerMayStay(s, event.node);
    match event
    case ReadDue(_, _, _) => SightingsKeepRoles(s, Perform(rules, s, event).sightings);
    case BeginTick(n) => SetWorkerKeepsRoles(s, n, Running({}));
    case Stop(n) => SetWorkerKeepsRoles(s, n, Stopping);
    case Join(n) => SetWorkerKeepsRoles(s, n, Idle);
  }

  /** New tasks of one running node. */
  lemma NewTasksKeepRoles(s: State, n: string, added: map<nat, Task>)
    requires RolesFit(s) && WorkerOf(s, n).Running?
    requires forall i :: i in added ==> added[i].node == n
                                        && (added[i].kind.Retry? ==> added[i].exec.tenantID in WorkerOf(s, n).scanned)
    ensures RolesFit(s.(tasks := s.tasks + added))
  {
    var next := s.(tasks := s.tasks + added);
    assert forall m :: WorkerOf(next, m) == WorkerOf(s, m);
  }

  lemma ClaimKeepsRoles(rules: Rules, s: State, n: string, claim: ClaimExecutionCommand, fate: Fate, i: nat)
    requires RolesFit(s) && Enabled(s, TickClaim(n, claim, fate, i))
    ensures RolesFit(Perform(rules, s, TickClaim(n, claim, fate, i)))
  {
    match fate
    case Committed(at) =>
      DbKeepsRoles(s, After(rules, s.db, LogEntry(ClaimExecution(claim), at)));
      var task := Task(n, FreshFire, NewExecution(rules, claim, at), Queued);
      var mid := Commit(rules, s, ClaimExecution(claim), at);
      NewTasksKeepRoles(mid, n, map[i := task]);
      assert mid.tasks + map[i := task] == mid.tasks[i := task];
    case InDoubt(at) => DoubtKeepsRoles(s, ClaimExecution(claim), at);
    case Lost =>
  }

  function ScanTasks(db: DB, n: string, now: Instant, chosen: map<nat, Key>): map<nat, Task>
    requires forall i :: i in chosen ==> chosen[i] in db.executions
  {
    map i | i in chosen :: ScanTask(db, n, chosen[i], now)
  }

  lemma ScanKeepsRoles(rules: Rules, s: State, n: string, tenant: string, now: Instant, chosen: map<nat, Key>)
    requires RolesFit(s) && SelfKeyed(s.db) && Enabled(s, TickScan(n, tenant, now, chosen))
    ensures RolesFit(Perform(rules, s, TickScan(n, tenant, now, chosen)))
  {
    WorkerMayStay(s, n);
    var w := Running(WorkerOf(s, n).scanned + {tenant});
    SetWorkerKeepsRoles(s, n, w);
    NewTasksKeepRoles(SetWorker(s, n, w), n, ScanTasks(s.db, n, now, chosen));
  }

  lemma TaskStepKeepsRoles(rules: Rules, s: State, event: Event)
    requires RolesFit(s) && Enabled(s, event)
             && (event.ReadSchedule? || event.Respond? || event.ReadAttempts? || event.TaskEnds?)
    ensures RolesFit(Perform(rules, s, event))
  {
    TasksKeepRoles(s, Perform(rules, s, event).tasks);
  }

  lemma RecordKeepsRoles(rules: Rules, s: State, i: nat, fate: Fate)
    requires RolesFit(s) && CommandsFit(s) && Enabled(s, ProposeRecord(i, fate))
    ensures RolesFit(Perform(rules, s, ProposeRecord(i, fate)))
  {
    var record := s.tasks[i].phase.record;
    var next := Perform(rules, s, ProposeRecord(i, fate));
    assert PhaseFits(s.tasks[i]);
    TasksKeepRoles(s, next.tasks);
    var mid := s.(tasks := next.tasks);
    match fate
    case Committed(at) => DbKeepsRoles(mid, After(rules, s.db, LogEntry(RecordAttempt(record), at)));
    case InDoubt(at) => DoubtKeepsRoles(mid, RecordAttempt(record), at);
    case Lost =>
  }

  lemma CompleteKeepsRoles(rules: Rules, s: State, i: nat, fate: Fate)
    requires RolesFit(s) && Enabled(s, ProposeComplete(i, fate))
    ensures RolesFit(Perform(rules, s, ProposeComplete(i, fate)))
  {
    var complete := s.tasks[i].phase.complete;
    TasksKeepRoles(s, s.tasks - {i});
    var mid := EndTask(s, i);
    match fate
    case Committed(at) => DbKeepsRoles(mid, After(rules, s.db, LogEntry(CompleteExecution(complete), at)));
    case InDoubt(at) => DoubtKeepsRoles(mid, CompleteExecution(complete), at);
    case Lost =>
  }

  // ------------------------------------------------------------------ commands, step by step

  lemma OtherStepKeepsCommands(rules: Rules, s: State, event: Event)
    requires CommandsFit(s) && Enabled(s, event)
    requires !event.ReadSchedule? && !event.Respond? && !event.TickClaim? && !event.TickScan? && !event.ProposeRecord?
    requires RolesFit(s)
    ensures CommandsFit(Perform(rules, s, event))
  {
    match event
    case RecoverPropose(n, _) => WorkerMayStay(s, n);
    case _ =>
  }

  lemma TaskStepKeepsCommands(rules: Rules, s: State, event: Event)
    requires CommandsFit(s) && SelfKeyed(s.db) && Enabled(s, event) && (event.ReadSchedule? || event.Respond?)
    ensures CommandsFit(Perform(rules, s, event))
  {
    assert PhaseFits(s.tasks[event.task]);
  }

  lemma ProposalKeepsCommands(rules: Rules, s: State, event: Event)
    requires CommandsFit(s) && Enabled(s, event) && (event.TickClaim? || event.ProposeRecord?)
    ensures CommandsFit(Perform(rules, s, event))
  {
    if event.ProposeRecord? {
      assert PhaseFits(s.tasks[event.task]);
    }
  }

  lemma ScanKeepsCommands(rules: Rules, s: State, event: Event)
    requires CommandsFit(s) && Enabled(s, event) && event.TickScan?
    ensures CommandsFit(Perform(rules, s, event))
  {
  }

  // ------------------------------------------------------------------ recorders, step by step

  lemma NoTasksNoRecorder(s: State, n: string, k: Key)
    requires RolesFit(s) && (WorkerOf(s, n).Idle? || WorkerOf(s, n).Recovering?) && NoRecordInDoubt(s.pending, n)
    ensures NoRecorder(s.tasks, s.pending, n, k)
  {
  }

  /** An entry in doubt, when it is decided after all, meets no other recorder. */
  lemma DecideKeepsSafe(rules: Rules, s: State, entry: LogEntry)
    requires TablesFit(rules, s.db) && RecordersFit(s.db.executions, s.tasks, s.pending)
    requires RolesFit(s) && CommandsFit(s) && Enabled(s, Decide(entry))
    ensures var next := Perform(rules, s, Decide(entry));
            TablesFit(rules, next.db) && RecordersFit(next.db.executions, next.tasks, next.pending)
  {
    var rest, c := s.pending - {entry}, ChangeOf(rules, s.db, entry);
    FewerRecorders(s.db.executions, s.tasks, rest, s.tasks, s.pending);
    assert EntryFits(entry);
    DecidedIsUnrivalled(rules, s, entry);
    CommitKeepsTables(rules, s.db, entry);
    CommitKeepsRecorders(rules, s.db, entry, s.tasks, rest);
  }

  lemma DecidedRecord(rules: Rules, s: State, entry: LogEntry)
    requires TablesFit(rules, s.db) && RecordersFit(s.db.executions, s.tasks, s.pending)
    requires CommandsFit(s) && entry in s.pending && ChangeOf(rules, s.db, entry).Recorded?
    ensures var c := ChangeOf(rules, s.db, entry); NoRecorder(s.tasks, s.pending - {entry}, c.attempt.nodeID, c.k)
    ensures RecordFits(s.db, ChangeOf(rules, s.db, entry))
  {
    var c := ChangeOf(rules, s.db, entry);
    assert EntryFits(entry);
    AcceptedRecord(rules, s.db, entry);
    LoneDoubt(s.db.executions, s.tasks, s.pending, entry, c.attempt.nodeID, c.k);
  }

  lemma DecidedIsUnrivalled(rules: Rules, s: State, entry: LogEntry)
    requires TablesFit(rules, s.db) && RecordersFit(s.db.executions, s.tasks, s.pending)
    requires RolesFit(s) && CommandsFit(s) && Enabled(s, Decide(entry))
    ensures Unrivalled(s.tasks, s.pending - {entry}, ChangeOf(rules, s.db, entry))
    ensures RecordFits(s.db, ChangeOf(rules, s.db, entry))
  {
    var c := ChangeOf(rules, s.db, entry);
    if c.Adopted? {
      DecidedAdoption(rules, s, entry);
    } else if c.Recorded? {
      DecidedRecord(rules, s, entry);
    }
  }

  lemma DecidedAdoption(rules: Rules, s: State, entry: LogEntry)
    requires RolesFit(s) && entry in s.pending && ChangeOf(rules, s.db, entry).Adopted?
    ensures var c := ChangeOf(rules, s.db, entry); NoRecorder(s.tasks, s.pending - {entry}, c.owner, c.k)
  {
    var c := ChangeOf(rules, s.db, entry);
    assert entry.command.AdoptExecution? && entry.command.adopt.newOwner == c.owner;
    NoTasksNoRecorder(s, c.owner, c.k);
  }

  /** A record is accepted only from the owner. */
  lemma AcceptedRecord(rules: Rules, db: DB, entry: LogEntry)
    requires SelfKeyed(db) && ChangeOf(rules, db, entry).Recorded?
    ensures var c := ChangeOf(rules, db, entry);
            && entry.command.RecordAttempt? && RecordsFor(entry, c.attempt.nodeID, c.k)
               && Owns(db.executions, c.attempt.nodeID, c.k)
            && c.attempt.outcome == entry.command.record.outcome && c.retryAt == entry.command.record.retryAt
  {
    StepIsChange(rules, db, entry);
  }

  lemma LoneDoubt(executions: map<Key, Execution>, tasks: map<nat, Task>, pending: set<LogEntry>, entry: LogEntry,
                  n: string, k: Key)
    requires RecordersFit(executions, tasks, pending) && entry in pending && RecordsFor(entry, n, k)
             && Owns(executions, n, k)
    ensures NoRecorder(tasks, pending - {entry}, n, k) && Receptive(executions[k])
  {
  }

  lemma LoneTask(executions: map<Key, Execution>, tasks: map<nat, Task>, pending: set<LogEntry>, i: nat,
                 left: map<nat, Task>)
    requires RecordersFit(executions, tasks, pending) && i in tasks && IsRecorder(tasks[i])
    requires Owns(executions, tasks[i].node, TaskKey(tasks[i]))
    requires Fewer(left, tasks) && (i in left ==> !IsRecorder(left[i]))
    ensures NoRecorder(left, pending, tasks[i].node, TaskKey(tasks[i])) && Receptive(executions[TaskKey(tasks[i])])
  {
  }

  ghost predicate CoreFits(rules: Rules, s: State) {
    TablesFit(rules, s.db) && RecordersFit(s.db.executions, s.tasks, s.pending)
  }

  /** Tasks and entries in doubt only go or move on. */
  lemma QuietKeepsCore(rules: Rules, s: State, next: State)
    requires CoreFits(rules, s) && next.db == s.db && Fewer(next.tasks, s.tasks)
    requires forall p :: p in next.pending && p.command.RecordAttempt? ==> p in s.pending
    ensures CoreFits(rules, next)
  {
    FewerRecorders(s.db.executions, next.tasks, next.pending, s.tasks, s.pending);
  }

  predicate IsQuiet(event: Event) {
    || event.Elect? || event.StepDown? || event.Crash? || event.BeginRecovery? || event.RecoverRead?
       || event.RecoverFail?
    || event.RecoverDone? || event.BeginTick? || event.ReadDue? || event.Stop? || event.Join? || event.ReadSchedule?
       || event.Respond?
    || event.ReadAttempts? || event.TaskEnds?
  }

  lemma QuietEvent(rules: Rules, s: State, event: Event)
    requires Enabled(s, event) && IsQuiet(event)
    ensures var next := Perform(rules, s, event);
            && next.db == s.db && Fewer(next.tasks, s.tasks) && next.pending <= s.pending
  {
  }

  lemma QuietEventKeepsCore(rules: Rules, s: State, event: Event)
    requires CoreFits(rules, s) && Enabled(s, event) && IsQuiet(event)
    ensures CoreFits(rules, Perform(rules, s, event))
  {
    QuietEvent(rules, s, event);
    QuietKeepsCore(rules, s, Perform(rules, s, event));
  }

  /** A committed entry that records nothing and that no recorder competes with. */
  lemma CommitKeepsCore(rules: Rules, s: State, entry: LogEntry)
    requires CoreFits(rules, s) && Fresh(s.db, entry.command)
    requires Unrivalled(s.tasks, s.pending, ChangeOf(rules, s.db, entry))
             && RecordFits(s.db, ChangeOf(rules, s.db, entry))
    ensures CoreFits(rules, s.(db := After(rules, s.db, entry)))
  {
    CommitKeepsTables(rules, s.db, entry);
    CommitKeepsRecorders(rules, s.db, entry, s.tasks, s.pending);
  }

  lemma UserCommandKeepsCore(rules: Rules, s: State, entry: LogEntry)
    requires CoreFits(rules, s) && IsUserCommand(entry.command)
    ensures CoreFits(rules, s.(db := After(rules, s.db, entry)))
  {
    CommitKeepsCore(rules, s, entry);
  }

  /** Recovery only finishes executions or adopts them for its own node. */
  lemma RecoveredChange(rules: Rules, db: DB, n: string, intent: Command, at: Instant)
    requires IntentFits(Some(intent), n)
    ensures var c := ChangeOf(rules, db, LogEntry(intent, at));
            Fresh(db, intent) && !c.Recorded? && (c.Adopted? ==> c.owner == n)
  {
  }

  lemma RecoveryCommitKeepsCore(rules: Rules, s: State, n: string, intent: Command, at: Instant)
    requires CoreFits(rules, s) && RolesFit(s) && WorkerOf(s, n).Recovering? && WorkerOf(s, n).intent == Some(intent)
    ensures CoreFits(rules, Commit(rules, s, intent, at))
  {
    WorkerMayStay(s, n);
    RecoveredChange(rules, s.db, n, intent, at);
    var c := ChangeOf(rules, s.db, LogEntry(intent, at));
    if c.Adopted? {
      NoTasksNoRecorder(s, n, c.k);
    }
    CommitKeepsCore(rules, s, LogEntry(intent, at));
  }

  lemma UncommittedRecovery(rules: Rules, s: State, n: string, fate: Fate)
    requires RolesFit(s) && Enabled(s, RecoverPropose(n, fate)) && !fate.Committed?
    ensures var next := Perform(rules, s, RecoverPropose(n, fate));
            && next.db == s.db && next.tasks == s.tasks
            && forall p :: p in next.pending && p.command.RecordAttempt? ==> p in s.pending
  {
    WorkerMayStay(s, n);
  }

  lemma RecoverProposeKeepsCore(rules: Rules, s: State, n: string, fate: Fate)
    requires CoreFits(rules, s) && RolesFit(s) && Enabled(s, RecoverPropose(n, fate))
    ensures CoreFits(rules, Perform(rules, s, RecoverPropose(n, fate)))
  {
    if fate.Committed? {
      RecoveryCommitKeepsCore(rules, s, n, WorkerOf(s, n).intent.value, fate.at);
    } else {
      UncommittedRecovery(rules, s, n, fate);
      QuietKeepsCore(rules, s, Perform(rules, s, RecoverPropose(n, fate)));
    }
  }

  /** A fresh claim comes with the only recorder of the new execution. */
  lemma FirstRecorder(executions: map<Key, Execution>, tasks: map<nat, Task>, pending: set<LogEntry>, e: Execution,
                      i: nat, task: Task)
    requires RecordersFit(executions, tasks, pending) && (e.tenantID, e.id) !in executions && i !in tasks
    requires RecordersFit(executions[(e.tenantID, e.id) := e], tasks, pending)
    requires task.exec == e && e.attemptCount == 0
    ensures RecordersFit(executions[(e.tenantID, e.id) := e], tasks[i := task], pending)
  {
    var k := (e.tenantID, e.id);
    assert forall j :: j in tasks && IsRecorder(tasks[j]) ==> TaskKey(tasks[j]) != k;
    assert forall n :: NoneInDoubt(pending, n, k);
  }

  lemma CommittedClaim(rules: Rules, db: DB, claim: ClaimExecutionCommand, at: Instant)
    requires Fresh(db, ClaimExecution(claim))
    ensures var c, e := ChangeOf(rules, db, LogEntry(ClaimExecution(claim), at)), NewExecution(rules, claim, at);
            && (c.NoChange? || c.Claimed?) && e.attemptCount == 0 && (e.tenantID, e.id) !in db.executions
            && (ApplyClaimExecution(rules, db, claim, at).Accepted? ==>
                  After(rules, db, LogEntry(ClaimExecution(claim), at)).executions
                      == db.executions[(e.tenantID, e.id) := e])
  {
  }

  lemma ClaimCommitKeepsCore(rules: Rules, s: State, n: string, claim: ClaimExecutionCommand, at: Instant, i: nat)
    requires CoreFits(rules, s) && Fresh(s.db, ClaimExecution(claim)) && i !in s.tasks
    ensures CoreFits(rules, AfterClaim(rules, s, n, claim, Committed(at), i))
  {
    CommittedClaim(rules, s.db, claim, at);
    CommitKeepsCore(rules, s, LogEntry(ClaimExecution(claim), at));
    if ApplyClaimExecution(rules, s.db, claim, at).Accepted? {
      var e := NewExecution(rules, claim, at);
      FirstRecorder(s.db.executions, s.tasks, s.pending, e, i, Task(n, FreshFire, e, Queued));
    }
  }

  lemma ClaimKeepsCore(rules: Rules, s: State, n: string, claim: ClaimExecutionCommand, fate: Fate, i: nat)
    requires CoreFits(rules, s) && Enabled(s, TickClaim(n, claim, fate, i))
    ensures CoreFits(rules, Perform(rules, s, TickClaim(n, claim, fate, i)))
  {
    match fate
    case Committed(at) => ClaimCommitKeepsCore(rules, s, n, claim, at, i);
    case InDoubt(at) => DoubtKeepsCore(rules, s, ClaimExecution(claim), at);
    case Lost =>
  }

  lemma FinishKeepsCore(rules: Rules, s: State, command: Command, at: Instant)
    requires CoreFits(rules, s) && command.CompleteExecution?
    ensures CoreFits(rules, Commit(rules, s, command, at))
  {
    CommitKeepsCore(rules, s, LogEntry(command, at));
  }

  lemma EndTaskKeepsCore(rules: Rules, s: State, i: nat)
    requires CoreFits(rules, s)
    ensures CoreFits(rules, EndTask(s, i))
  {
    QuietKeepsCore(rules, s, EndTask(s, i));
  }

  lemma DoubtKeepsCore(rules: Rules, s: State, command: Command, at: Instant)
    requires CoreFits(rules, s) && !command.RecordAttempt?
    ensures CoreFits(rules, Doubt(s, command, at))
  {
    QuietKeepsCore(rules, s, Doubt(s, command, at));
  }

  lemma CompleteStep(rules: Rules, s: State, i: nat, fate: Fate)
    requires Enabled(s, ProposeComplete(i, fate))
    ensures var next := Perform(rules, s, ProposeComplete(i, fate));
            var complete := CompleteExecution(s.tasks[i].phase.complete);
            match fate
            case Committed(at) => next == Commit(rules, EndTask(s, i), complete, at)
            case InDoubt(at) => next == Doubt(EndTask(s, i), complete, at)
            case Lost => next == EndTask(s, i)
  {
  }

  lemma CompleteKeepsCore(rules: Rules, s: State, i: nat, fate: Fate)
    requires CoreFits(rules, s) && Enabled(s, ProposeComplete(i, fate))
    ensures CoreFits(rules, Perform(rules, s, ProposeComplete(i, fate)))
  {
    CompleteStep(rules, s, i, fate);
    EndTaskKeepsCore(rules, s, i);
    match fate
    case Committed(at) => FinishKeepsCore(rules, EndTask(s, i), CompleteExecution(s.tasks[i].phase.complete), at);
    case InDoubt(at) => DoubtKeepsCore(rules, EndTask(s, i), CompleteExecution(s.tasks[i].phase.complete), at);
    case Lost =>
  }

  /** The task that records is the only recorder, and records on an execution that needs it. */
  lemma RecordKeepsCore(rules: Rules, s: State, i: nat, at: Instant, left: map<nat, Task>)
    requires CoreFits(rules, s) && CommandsFit(s) && i in s.tasks && s.tasks[i].phase.Recording?
    requires Fresh(s.db, RecordAttempt(s.tasks[i].phase.record))
    requires Fewer(left, s.tasks) && (i in left ==> !IsRecorder(left[i]))
    ensures CoreFits(rules, Commit(rules, s.(tasks := left), RecordAttempt(s.tasks[i].phase.record), at))
  {
    var entry := LogEntry(RecordAttempt(s.tasks[i].phase.record), at);
    var c := ChangeOf(rules, s.db, entry);
    assert PhaseFits(s.tasks[i]);
    if c.Recorded? {
      AcceptedRecord(rules, s.db, entry);
      LoneTask(s.db.executions, s.tasks, s.pending, i, left);
    }
    QuietKeepsCore(rules, s, s.(tasks := left));
    CommitKeepsCore(rules, s.(tasks := left), entry);
  }

  /** A record in doubt takes the place of the task that proposed it. */
  lemma DoubtedRecordKeepsRecorders(executions: map<Key, Execution>, tasks: map<nat, Task>, pending: set<LogEntry>,
                                    i: nat, entry: LogEntry)
    requires RecordersFit(executions, tasks, pending) && i in tasks && IsRecorder(tasks[i])
    requires RecordsFor(entry, tasks[i].node, TaskKey(tasks[i]))
    ensures RecordersFit(executions, tasks - {i}, pending + {entry})
  {
    var left, n, k := tasks - {i}, tasks[i].node, TaskKey(tasks[i]);
    FewerRecorders(executions, left, pending, tasks, pending);
    assert forall m, j :: RecordsFor(entry, m, j) ==> m == n && j == k;
    forall j | j in left && IsRecorder(left[j]) && Owns(executions, left[j].node, TaskKey(left[j]))
      ensures NoneInDoubt(pending + {entry}, left[j].node, TaskKey(left[j]))
    {
      assert NoneInDoubt(pending, tasks[j].node, TaskKey(tasks[j]));
    }
    if Owns(executions, n, k) {
      assert NoneInDoubt(pending, n, k);
    }
  }

  /** Whatever becomes of a proposed record, the task that proposed it records no more. */
  lemma RecordStep(rules: Rules, s: State, i: nat, fate: Fate)
    requires Enabled(s, ProposeRecord(i, fate))
    ensures var next, record := Perform(rules, s, ProposeRecord(i, fate)), RecordAttempt(s.tasks[i].phase.record);
            && Fewer(next.tasks, s.tasks) && (i in next.tasks ==> !IsRecorder(next.tasks[i]))
            && match fate
               case Committed(at) => next == Commit(rules, s.(tasks := next.tasks), record, at)
               case InDoubt(at) => next == EndTask(Doubt(s, record, at), i)
               case Lost => next == EndTask(s, i)
  {
  }

  lemma ProposeRecordKeepsCore(rules: Rules, s: State, i: nat, fate: Fate)
    requires CoreFits(rules, s) && CommandsFit(s) && Enabled(s, ProposeRecord(i, fate))
    ensures CoreFits(rules, Perform(rules, s, ProposeRecord(i, fate)))
  {
    var next := Perform(rules, s, ProposeRecord(i, fate));
    RecordStep(rules, s, i, fate);
    assert PhaseFits(s.tasks[i]);
    match fate
    case Committed(at) => RecordKeepsCore(rules, s, i, at, next.tasks);
    case InDoubt(at) =>
      DoubtedRecordKeepsRecorders(s.db.executions, s.tasks, s.pending, i,
                                  LogEntry(RecordAttempt(s.tasks[i].phase.record), at));
    case Lost => QuietKeepsCore(rules, s, next);
  }

  /** A recorder that a tick already has for a tenant it has not scanned is a fresh fire; if the
      node still owns the execution, no attempt has been recorded. */
  lemma EarlyRecorderIsFirst(rules: Rules, s: State, n: string, j: nat)
    requires CoreFits(rules, s) && RolesFit(s) && CommandsFit(s) && WorkerOf(s, n).Running?
    requires j in s.tasks && s.tasks[j].node == n && IsRecorder(s.tasks[j])
    requires TaskKey(s.tasks[j]).0 !in WorkerOf(s, n).scanned && Owns(s.db.executions, n, TaskKey(s.tasks[j]))
    ensures s.db.executions[TaskKey(s.tasks[j])].lastRetryAt.None?
  {
    var k := TaskKey(s.tasks[j]);
    assert PhaseFits(s.tasks[j]) && s.tasks[j].kind.FreshFire?;
    assert s.db.executions[k].attemptCount == 0;
    assert CachedAt(s.db.executions[k], LastAttempt(s.db, k));
  }

  /** So the scan does not retry an execution for which the node already has a recorder. */
  lemma ScannedHasNoRecorder(rules: Rules, s: State, n: string, k: Key, now: Instant, j: nat)
    requires CoreFits(rules, s) && RolesFit(s) && CommandsFit(s)
    requires WorkerOf(s, n).Running? && k.0 !in WorkerOf(s, n).scanned
    requires Owns(s.db.executions, n, k) && TickDecision(s.db.executions[k], now).DispatchRetry?
    requires j in s.tasks && s.tasks[j].node == n && IsRecorder(s.tasks[j])
    ensures TaskKey(s.tasks[j]) != k
  {
    var j' := TaskKey(s.tasks[j]);
    if j'.0 !in WorkerOf(s, n).scanned && Owns(s.db.executions, n, j') {
      EarlyRecorderIsFirst(rules, s, n, j);
    }
  }

  /** New recorders with fresh snapshots, one per execution, where there was none. */
  lemma NewRecorders(executions: map<Key, Execution>, tasks: map<nat, Task>, added: map<nat, Task>, n: string)
    requires RecordersFit(executions, tasks, {})
    requires forall i :: i in added && IsRecorder(added[i]) ==>
      && i !in tasks && added[i].node == n && TaskKey(added[i]) in executions
      && executions[TaskKey(added[i])] == added[i].exec && Receptive(added[i].exec)
    requires forall i, j :: i in added && j in added && TaskKey(added[i]) == TaskKey(added[j]) ==> i == j
    requires forall i, j ::
      (i in added && IsRecorder(added[i]) && Owns(executions, n, TaskKey(added[i]))
       && j in tasks && tasks[j].node == n && IsRecorder(tasks[j])) ==> TaskKey(tasks[j]) != TaskKey(added[i])
    ensures RecordersFit(executions, tasks + added, {})
  {
  }

  lemma ScannedTask(db: DB, n: string, now: Instant, chosen: map<nat, Key>, i: nat)
    requires SelfKeyed(db) && (forall j :: j in chosen ==> chosen[j] in db.executions) && i in chosen
    requires !TickDecision(db.executions[chosen[i]], now).Leave?
    ensures var t := ScanTasks(db, n, now, chosen)[i];
            && TaskKey(t) == chosen[i] && t.node == n && t.exec == db.executions[chosen[i]]
            && (IsRecorder(t) ==> TickDecision(t.exec, now).DispatchRetry? && Receptive(t.exec))
  {
  }

  lemma ScanAddsRecorders(rules: Rules, s: State, n: string, tenant: string, now: Instant, chosen: map<nat, Key>)
    requires CoreFits(rules, s) && RolesFit(s) && CommandsFit(s) && s.pending == {}
    requires WorkerOf(s, n).Running? && tenant !in WorkerOf(s, n).scanned && ScanChooses(s, tenant, now, chosen)
    ensures RecordersFit(s.db.executions, s.tasks + ScanTasks(s.db, n, now, chosen), {})
  {
    var added := ScanTasks(s.db, n, now, chosen);
    forall i | i in added
      ensures TaskKey(added[i]) == chosen[i] && added[i].node == n && added[i].exec == s.db.executions[chosen[i]]
      ensures IsRecorder(added[i]) ==> Receptive(added[i].exec) && TickDecision(added[i].exec, now).DispatchRetry?
    {
      ScannedTask(s.db, n, now, chosen, i);
    }
    forall i, j | i in added && IsRecorder(added[i]) && Owns(s.db.executions, n, TaskKey(added[i]))
                  && j in s.tasks && s.tasks[j].node == n && IsRecorder(s.tasks[j])
      ensures TaskKey(s.tasks[j]) != TaskKey(added[i])
    {
      ScannedHasNoRecorder(rules, s, n, chosen[i], now, j);
    }
    NewRecorders(s.db.executions, s.tasks, added, n);
  }

  lemma ScanKeepsCore(rules: Rules, s: State, n: string, tenant: string, now: Instant, chosen: map<nat, Key>)
    requires CoreFits(rules, s) && RolesFit(s) && CommandsFit(s) && Enabled(s, TickScan(n, tenant, now, chosen))
    ensures CoreFits(rules, Perform(rules, s, TickScan(n, tenant, now, chosen)))
  {
    ScanAddsRecorders(rules, s, n, tenant, now, chosen);
  }
}
