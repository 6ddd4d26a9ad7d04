/**
 What holds over every log, whatever the recurrence rules: at-most-once claims, finality of
 terminal executions, the audit trail and its fencing, unique idempotency keys, and the
 lifecycle of schedules.
 */
module LogTheorems {
  import opened Base
  import opened Calendar
  import opened Domain
  import opened Fsm
  import opened Changes

  // ------------------------------------------------------------------ invariants of executions

  /** In flight means owned; terminal means released, with completion time and outcome. */
  ghost predicate WellShaped(e: Execution) {
    if e.status.InFlight? then e.ownerNodeID != "" && e.completedAt.None? && e.finalOutcome == ""
    else IsTerminal(e.status) && e.ownerNodeID == "" && e.completedAt.Some? && e.finalOutcome != ""
  }

  ghost predicate ExecutionsWellFormed(rules: Rules, executions: map<Key, Execution>) {
    forall k :: k in executions ==>
      var e := executions[k];
      && WellShaped(e) && e.idempotencyKey == rules.key(e.scheduleID, e.scheduledFor, e.scheduledOffset)
      && (e.attemptCount == 0 <==> e.lastAttemptID == "") && e.id != ""
  }

  /** At most one execution for each tenant, schedule and instant. */
  ghost predicate OnePerSlot(executions: map<Key, Execution>) {
    forall k, j ::
      (k in executions && j in executions && k.0 == j.0 && executions[k].scheduleID == executions[j].scheduleID
       && executions[k].scheduledFor == executions[j].scheduledFor) ==> k == j
  }

  lemma ChangeKeepsWellFormed(rules: Rules, db: DB, c: Change)
    requires ExecutionsWellFormed(rules, db.executions) && Allowed(rules, db, c)
    ensures ExecutionsWellFormed(rules, ExecutionsAfter(db.executions, c))
  {
  }

  lemma ChangeKeepsOnePerSlot(rules: Rules, db: DB, c: Change)
    requires OnePerSlot(db.executions) && Allowed(rules, db, c)
    ensures OnePerSlot(ExecutionsAfter(db.executions, c))
  {
    if c.Claimed? {
      forall k | k in db.executions && k.0 == c.e.tenantID && db.executions[k].scheduleID == c.e.scheduleID
        ensures db.executions[k].scheduledFor != c.e.scheduledFor
      {
        assert db.executions[k].scheduledFor in ClaimedSlots(db, (c.e.tenantID, c.e.scheduleID));
      }
    }
  }

  // ------------------------------------------------------------------ the audit trail

  ghost predicate HasAttempt(attempts: map<Key, Attempt>, k: Key, n: nat) {
    exists a :: a in attempts && ExecutionKeyOf(attempts[a]) == k && attempts[a].attemptNumber == n
  }

  /** Attempts belong to executions and are numbered within their count, each number once. */
  ghost predicate NumbersFit(executions: map<Key, Execution>, attempts: map<Key, Attempt>) {
    && (forall a :: a in attempts ==>
          && ExecutionKeyOf(attempts[a]) in executions
          && 1 <= attempts[a].attemptNumber <= executions[ExecutionKeyOf(attempts[a])].attemptCount)
    && (forall a, b :: (a in attempts && b in attempts && ExecutionKeyOf(attempts[a]) == ExecutionKeyOf(attempts[b])
                        && attempts[a].attemptNumber == attempts[b].attemptNumber) ==> a == b)
  }

  /** Every number up to the count is there, and the last attempt is the highest-numbered one. */
  ghost predicate NumbersComplete(executions: map<Key, Execution>, attempts: map<Key, Attempt>) {
    && (forall k, n: nat :: k in executions && 1 <= n <= executions[k].attemptCount ==> HasAttempt(attempts, k, n))
    && (forall k :: k in executions && executions[k].attemptCount > 0 ==>
          var last := (k.0, executions[k].lastAttemptID);
          && last in attempts && ExecutionKeyOf(attempts[last]) == k
          && attempts[last].attemptNumber == executions[k].attemptCount)
  }

  ghost predicate AuditTrail(db: DB) {
    NumbersFit(db.executions, db.attempts) && NumbersComplete(db.executions, db.attempts)
  }

  /** A claim or an attempt brings an ID of its own (the worker draws ULIDs). */
  ghost predicate Fresh(db: DB, command: Command) {
    match command
    case ClaimExecution(cmd) => (cmd.tenantID, cmd.id) !in db.executions
    case RecordAttempt(cmd) => (cmd.tenantID, cmd.id) !in db.attempts
    case _ => true
  }

  ghost predicate FreshChange(db: DB, c: Change) {
    match c
    case Claimed(e) => (e.tenantID, e.id) !in db.executions
    case Recorded(k, a, _) => (a.tenantID, a.id) !in db.attempts
    case _ => true
  }

  lemma FreshIsFreshChange(rules: Rules, db: DB, entry: LogEntry)
    requires Fresh(db, entry.command)
    ensures FreshChange(db, ChangeOf(rules, db, entry))
  {
    var c := ChangeOf(rules, db, entry);
    match entry.command
    case ClaimExecution(cmd) => assert c.NoChange? || c == Claimed(NewExecution(rules, cmd, entry.proposedAt));
    case RecordAttempt(cmd) =>
    case _ =>
  }

  lemma ChangeKeepsNumbersFit(rules: Rules, db: DB, c: Change)
    requires NumbersFit(db.executions, db.attempts) && Allowed(rules, db, c) && FreshChange(db, c)
    ensures NumbersFit(ExecutionsAfter(db.executions, c), AttemptsAfter(db.attempts, c))
  {
  }

  lemma RecordKeepsNumbersComplete(rules: Rules, db: DB, c: Change, k: Key, n: nat)
    requires NumbersComplete(db.executions, db.attempts) && c.Recorded? && Allowed(rules, db, c) && FreshChange(db, c)
    requires k in db.executions && 1 <= n <= ExecutionsAfter(db.executions, c)[k].attemptCount
    ensures HasAttempt(AttemptsAfter(db.attempts, c), k, n)
  {
    var next := AttemptsAfter(db.attempts, c);
    if n <= db.executions[k].attemptCount {
      assert HasAttempt(db.attempts, k, n);
      var a :| a in db.attempts && ExecutionKeyOf(db.attempts[a]) == k && db.attempts[a].attemptNumber == n;
      assert a in next && next[a] == db.attempts[a];
    } else {
      var a := (c.attempt.tenantID, c.attempt.id);
      assert a in next && ExecutionKeyOf(next[a]) == k && next[a].attemptNumber == n;
    }
  }

  lemma RecordKeepsLastAttempt(rules: Rules, db: DB, c: Change, k: Key)
    requires NumbersComplete(db.executions, db.attempts) && c.Recorded? && Allowed(rules, db, c) && FreshChange(db, c)
    requires k in db.executions && ExecutionsAfter(db.executions, c)[k].attemptCount > 0
    ensures var executions, attempts := ExecutionsAfter(db.executions, c), AttemptsAfter(db.attempts, c);
            var last := (k.0, executions[k].lastAttemptID);
            && last in attempts && ExecutionKeyOf(attempts[last]) == k
            && attempts[last].attemptNumber == executions[k].attemptCount
  {
    if k != c.k {
      var last := (k.0, db.executions[k].lastAttemptID);
      assert last in db.attempts;
    }
  }

  lemma ChangeKeepsNumbersComplete(rules: Rules, db: DB, c: Change)
    requires NumbersComplete(db.executions, db.attempts) && Allowed(rules, db, c) && FreshChange(db, c)
    ensures NumbersComplete(ExecutionsAfter(db.executions, c), AttemptsAfter(db.attempts, c))
  {
    var executions, attempts := ExecutionsAfter(db.executions, c), AttemptsAfter(db.attempts, c);
    if c.Recorded? {
      forall k, n: nat | k in executions && 1 <= n <= executions[k].attemptCount
        ensures HasAttempt(attempts, k, n)
      {
        RecordKeepsNumbersComplete(rules, db, c, k, n);
      }
      forall k | k in executions && executions[k].attemptCount > 0
        ensures var last := (k.0, executions[k].lastAttemptID);
                && last in attempts && ExecutionKeyOf(attempts[last]) == k
                && attempts[last].attemptNumber == executions[k].attemptCount
      {
        RecordKeepsLastAttempt(rules, db, c, k);
      }
    }
  }

  // ------------------------------------------------------------------ invariants of schedules

  /** A next run belongs to an active schedule, and an active one has a next run unless it
      carries a catch-up policy the program does not know. */
  ghost predicate NextRunsFit(schedules: map<Key, Schedule>) {
    forall k :: k in schedules ==>
      var s := schedules[k];
      && (s.nextRunAt.Some? ==> s.status.Active?)
      && (s.status.Active? && !s.catchUpPolicy.OtherPolicy? ==> s.nextRunAt.Some?)
  }

  lemma MoveKeepsNextRunsFit(rules: Rules, db: DB, k: Key, next: map<Key, Schedule>, now: Instant,
                             finished: Option<Instant>)
    requires NextRunsFit(db.schedules) && SchedulesMove(rules, db, k, next, now, finished)
    ensures NextRunsFit(next)
  {
  }

  ghost predicate HasTerminal(executions: map<Key, Execution>, schedule: Key) {
    exists k :: k in executions && (k.0, executions[k].scheduleID) == schedule && IsTerminal(executions[k].status)
  }

  /** Terminal executions have their schedule, and a once schedule is completed exactly when
      it has a terminal execution. */
  ghost predicate OnceFits(schedules: map<Key, Schedule>, executions: map<Key, Execution>) {
    && (forall k :: k in executions && IsTerminal(executions[k].status) ==>
                      (k.0, executions[k].scheduleID) in schedules)
    && (forall s :: s in schedules && schedules[s].scheduleType.Once? ==>
          (schedules[s].status.Completed? <==> HasTerminal(executions, s)))
  }

  lemma TerminalsAfter(rules: Rules, db: DB, c: Change, schedule: Key)
    requires Allowed(rules, db, c) && FreshChange(db, c)
    ensures HasTerminal(ExecutionsAfter(db.executions, c), schedule)
       <==> (HasTerminal(db.executions, schedule)
             || (c.Finished? && (c.k.0, db.executions[c.k].scheduleID) == schedule))
  {
    var next := ExecutionsAfter(db.executions, c);
    if HasTerminal(db.executions, schedule) {
      var k :| k in db.executions && (k.0, db.executions[k].scheduleID) == schedule
               && IsTerminal(db.executions[k].status);
      assert k in next && (k.0, next[k].scheduleID) == schedule && IsTerminal(next[k].status);
    }
    if c.Finished? && (c.k.0, db.executions[c.k].scheduleID) == schedule {
      assert c.k in next && (c.k.0, next[c.k].scheduleID) == schedule && IsTerminal(next[c.k].status);
    }
    if HasTerminal(next, schedule) {
      var k :| k in next && (k.0, next[k].scheduleID) == schedule && IsTerminal(next[k].status);
      assert k in db.executions && (IsTerminal(db.executions[k].status) || (c.Finished? && c.k == k));
    }
  }

  /** An entry that finishes nothing. */
  lemma QuietStepKeepsOnceFits(rules: Rules, db: DB, c: Change, k: Key, next: map<Key, Schedule>, now: Instant)
    requires OnceFits(db.schedules, db.executions) && Allowed(rules, db, c) && FreshChange(db, c) && !c.Finished?
    requires SchedulesMove(rules, db, k, next, now, None)
    ensures OnceFits(next, ExecutionsAfter(db.executions, c))
  {
    var executions := ExecutionsAfter(db.executions, c);
    forall s | s in next && next[s].scheduleType.Once?
      ensures next[s].status.Completed? <==> HasTerminal(executions, s)
    {
      TerminalsAfter(rules, db, c, s);
      if s !in db.schedules {
        assert !HasTerminal(db.executions, s);
      }
    }
  }

  lemma FinishKeepsOnceFits(rules: Rules, db: DB, c: Change, next: map<Key, Schedule>, now: Instant)
    requires OnceFits(db.schedules, db.executions) && Allowed(rules, db, c) && c.Finished?
    requires SchedulesMove(rules, db, (c.k.0, db.executions[c.k].scheduleID), next, now,
                           Some(db.executions[c.k].scheduledFor))
    ensures OnceFits(next, ExecutionsAfter(db.executions, c))
  {
    var executions := ExecutionsAfter(db.executions, c);
    forall s | s in next && next[s].scheduleType.Once?
      ensures next[s].status.Completed? <==> HasTerminal(executions, s)
    {
      TerminalsAfter(rules, db, c, s);
    }
  }

  // ------------------------------------------------------------------ invariants of the tables

  /** Kept by every entry. */
  ghost predicate Consistent(rules: Rules, db: DB) {
    && SelfKeyed(db) && ExecutionsWellFormed(rules, db.executions) && OnePerSlot(db.executions)
    && NextRunsFit(db.schedules)
  }

  /** Kept by every entry that brings fresh IDs. */
  ghost predicate Audited(db: DB) {
    AuditTrail(db) && OnceFits(db.schedules, db.executions)
  }

  lemma StepKeepsConsistent(rules: Rules, db: DB, entry: LogEntry)
    requires Consistent(rules, db)
    ensures Consistent(rules, After(rules, db, entry))
  {
    var c := ChangeOf(rules, db, entry);
    StepKeepsKeys(rules, db, entry);
    StepIsChange(rules, db, entry);
    ChangeKeepsWellFormed(rules, db, c);
    ChangeKeepsOnePerSlot(rules, db, c);
    StepMovesSchedules(rules, db, entry);
    MoveKeepsNextRunsFit(rules, db, TargetSchedule(db, entry), After(rules, db, entry).schedules,
                         entry.proposedAt, FinishedSlot(rules, db, entry));
  }

  /** A finishing entry's target is the schedule of the execution it finishes. */
  lemma FinishTargetsItsSchedule(rules: Rules, db: DB, entry: LogEntry)
    requires SelfKeyed(db)
    ensures var c := ChangeOf(rules, db, entry);
            c.Finished? ==>
              && c.k in db.executions && TargetSchedule(db, entry) == (c.k.0, db.executions[c.k].scheduleID)
              && FinishedSlot(rules, db, entry) == Some(db.executions[c.k].scheduledFor)
  {
    StepIsChange(rules, db, entry);
  }

  lemma StepKeepsTrail(rules: Rules, db: DB, entry: LogEntry)
    requires SelfKeyed(db) && AuditTrail(db) && Fresh(db, entry.command)
    ensures AuditTrail(After(rules, db, entry))
  {
    var c := ChangeOf(rules, db, entry);
    StepIsChange(rules, db, entry);
    FreshIsFreshChange(rules, db, entry);
    ChangeKeepsNumbersFit(rules, db, c);
    ChangeKeepsNumbersComplete(rules, db, c);
  }

  lemma StepKeepsOnceFits(rules: Rules, db: DB, entry: LogEntry)
    requires SelfKeyed(db) && OnceFits(db.schedules, db.executions) && Fresh(db, entry.command)
    ensures OnceFits(After(rules, db, entry).schedules, After(rules, db, entry).executions)
  {
    var c, next := ChangeOf(rules, db, entry), After(rules, db, entry);
    StepIsChange(rules, db, entry);
    FreshIsFreshChange(rules, db, entry);
    StepMovesSchedules(rules, db, entry);
    if c.Finished? {
      FinishTargetsItsSchedule(rules, db, entry);
      FinishKeepsOnceFits(rules, db, c, next.schedules, entry.proposedAt);
    } else {
      QuietStepKeepsOnceFits(rules, db, c, TargetSchedule(db, entry), next.schedules, entry.proposedAt);
    }
  }

  lemma StepKeepsAudited(rules: Rules, db: DB, entry: LogEntry)
    requires Consistent(rules, db) && Audited(db) && Fresh(db, entry.command)
    ensures Audited(After(rules, db, entry))
  {
    StepKeepsTrail(rules, db, entry);
    StepKeepsOnceFits(rules, db, entry);
  }

  // ------------------------------------------------------------------ over every log

  /** Every claim and every attempt of the log brings a fresh ID. */
  ghost predicate FreshLog(rules: Rules, db: DB, log: seq<LogEntry>) {
    log == [] ||
    (var before := log[..|log| - 1];
     FreshLog(rules, db, before) && Fresh(Run(rules, db, before), log[|log| - 1].command))
  }

  /** After every log, with or without fresh IDs. */
  lemma {:induction false} LogKeepsConsistent(rules: Rules, db: DB, log: seq<LogEntry>)
    requires Consistent(rules, db)
    ensures Consistent(rules, Run(rules, db, log))
  {
    if log != [] {
      var before := log[..|log| - 1];
      LogKeepsConsistent(rules, db, before);
      StepKeepsConsistent(rules, Run(rules, db, before), log[|log| - 1]);
    }
  }

  lemma {:induction false} LogKeepsAudited(rules: Rules, db: DB, log: seq<LogEntry>)
    requires Consistent(rules, db) && Audited(db) && FreshLog(rules, db, log)
    ensures Audited(Run(rules, db, log))
  {
    if log != [] {
      var before := log[..|log| - 1];
      LogKeepsAudited(rules, db, before);
      LogKeepsConsistent(rules, db, before);
      StepKeepsAudited(rules, Run(rules, db, before), log[|log| - 1]);
    }
  }

  /** In every state a log can reach: one execution per slot, owned exactly while in flight;
      with fresh IDs also the whole audit trail, and once schedules completed exactly when
      they have a terminal execution. */
  lemma EveryLogIsSound(rules: Rules, log: seq<LogEntry>)
    ensures Consistent(rules, Run(rules, EMPTY_DB, log))
    ensures FreshLog(rules, EMPTY_DB, log) ==> Audited(Run(rules, EMPTY_DB, log))
  {
    LogKeepsConsistent(rules, EMPTY_DB, log);
    if FreshLog(rules, EMPTY_DB, log) {
      LogKeepsAudited(rules, EMPTY_DB, log);
    }
  }

  lemma ChangeIsFinal(rules: Rules, db: DB, c: Change, k: Key)
    requires Allowed(rules, db, c) && FreshChange(db, c) && k in db.executions
    ensures var next := ExecutionsAfter(db.executions, c);
            && k in next
            && (IsTerminal(db.executions[k].status) ==> next[k] == db.executions[k])
            && next[k].scheduleID == db.executions[k].scheduleID
            && next[k].scheduledFor == db.executions[k].scheduledFor
            && next[k].idempotencyKey == db.executions[k].idempotencyKey
            && next[k].attemptCount >= db.executions[k].attemptCount
  {
  }

  /** With fresh IDs, an execution never changes what it is for, its attempts never shrink, and
      once terminal it never changes again. */
  lemma {:induction false} TerminalIsFinal(rules: Rules, db: DB, log: seq<LogEntry>, k: Key)
    requires Consistent(rules, db) && FreshLog(rules, db, log) && k in db.executions
    ensures var after := Run(rules, db, log).executions;
            && k in after
            && (IsTerminal(db.executions[k].status) ==> after[k] == db.executions[k])
            && after[k].scheduleID == db.executions[k].scheduleID
            && after[k].scheduledFor == db.executions[k].scheduledFor
            && after[k].idempotencyKey == db.executions[k].idempotencyKey
            && after[k].attemptCount >= db.executions[k].attemptCount
  {
    if log != [] {
      var before, entry := log[..|log| - 1], log[|log| - 1];
      TerminalIsFinal(rules, db, before, k);
      LogKeepsConsistent(rules, db, before);
      var mid := Run(rules, db, before);
      StepIsChange(rules, mid, entry);
      FreshIsFreshChange(rules, mid, entry);
      ChangeIsFinal(rules, mid, ChangeOf(rules, mid, entry), k);
    }
  }

  /** A slot, once claimed, is never claimed again. */
  lemma ClaimedSlotsStayClaimed(rules: Rules, db: DB, log: seq<LogEntry>, cmd: ClaimExecutionCommand, now: Instant)
    requires Consistent(rules, db) && FreshLog(rules, db, log)
    requires cmd.scheduledFor in ClaimedSlots(db, (cmd.tenantID, cmd.scheduleID))
    ensures Step(rules, Run(rules, db, log), LogEntry(ClaimExecution(cmd), now)).Rejected?
  {
    var k :| k in db.executions && (k.0, db.executions[k].scheduleID) == (cmd.tenantID, cmd.scheduleID)
             && db.executions[k].scheduledFor == cmd.scheduledFor;
    TerminalIsFinal(rules, db, log, k);
    var after := Run(rules, db, log);
    assert after.executions[k].scheduledFor in ClaimedSlots(after, (cmd.tenantID, cmd.scheduleID));
    if !Shadowed(after, (cmd.tenantID, cmd.scheduleID)) {
      CollisionFirstIff(after, (cmd.tenantID, cmd.scheduleID), cmd.scheduledFor);
    }
  }

  // ------------------------------------------------------------------ fencing

  /** An execution's owner changes only by compare-and-swap to a new owner, or to nobody when
      the execution finishes. */
  lemma OwnershipIsCompareAndSwap(rules: Rules, db: DB, entry: LogEntry, k: Key)
    requires Consistent(rules, db) && Fresh(db, entry.command) && k in db.executions
    ensures var next := After(rules, db, entry).executions;
            k in next &&
            (next[k].ownerNodeID != db.executions[k].ownerNodeID ==>
               match entry.command
               case AdoptExecution(cmd) =>
                 k == (cmd.tenantID, cmd.executionID)
                 && cmd.previousOwner == db.executions[k].ownerNodeID && cmd.newOwner == next[k].ownerNodeID
               case CompleteExecution(_) => next[k].ownerNodeID == "" && IsTerminal(next[k].status)
               case FailExecutionTimeout(_) => next[k].ownerNodeID == "" && IsTerminal(next[k].status)
               case _ => false)
  {
    var c := ChangeOf(rules, db, entry);
    StepIsChange(rules, db, entry);
    FreshIsFreshChange(rules, db, entry);
    if c.Adopted? {
      assert entry.command.AdoptExecution?;
      assert ApplyAdoptExecution(db, entry.command.adopt).Accepted?;
    }
  }

  /** The owner of an execution in a table, nobody if there is no such row. */
  function OwnerOf(executions: map<Key, Execution>, k: Key): string {
    if k in executions then executions[k].ownerNodeID else ""
  }

  /** Every attempt recorded while one node owns an execution carries that node's ID. */
  lemma {:induction false} AttemptsCarryTheOwner(rules: Rules, db: DB, log: seq<LogEntry>, k: Key, owner: string,
                                                 a: Key)
    requires Consistent(rules, db) && FreshLog(rules, db, log)
    requires forall i :: 0 <= i <= |log| ==> OwnerOf(Run(rules, db, log[..i]).executions, k) == owner
    requires a in Run(rules, db, log).attempts && ExecutionKeyOf(Run(rules, db, log).attempts[a]) == k
    ensures a in db.attempts || Run(rules, db, log).attempts[a].nodeID == owner
  {
    if log != [] {
      var before, entry := log[..|log| - 1], log[|log| - 1];
      var mid := Run(rules, db, before);
      LogKeepsConsistent(rules, db, before);
      StepIsChange(rules, mid, entry);
      FreshIsFreshChange(rules, mid, entry);
      assert OwnerOf(mid.executions, k) == owner by { assert log[..|log| - 1] == before; }
      if a in mid.attempts {
        forall i | 0 <= i <= |before|
          ensures OwnerOf(Run(rules, db, before[..i]).executions, k) == owner
        {
          assert before[..i] == log[..i];
        }
        AttemptsCarryTheOwner(rules, db, before, k, owner, a);
      }
    }
  }

  // ------------------------------------------------------------------ idempotency keys

  ghost predicate KeysDetermineSlots(rules: Rules) {
    forall a, s, m, b, t, n :: rules.key(a, s, m) == rules.key(b, t, n) ==> a == b && s == t
  }

  /** Within a tenant, two executions never share an idempotency key. */
  lemma KeysAreUnique(rules: Rules, log: seq<LogEntry>, k: Key, j: Key)
    requires KeysDetermineSlots(rules)
    requires var executions := Run(rules, EMPTY_DB, log).executions;
             k in executions && j in executions && k.0 == j.0
                 && executions[k].idempotencyKey == executions[j].idempotencyKey
    ensures k == j
  {
    EveryLogIsSound(rules, log);
    var executions := Run(rules, EMPTY_DB, log).executions;
    assert rules.key(executions[k].scheduleID, executions[k].scheduledFor, executions[k].scheduledOffset)
        == rules.key(executions[j].scheduleID, executions[j].scheduledFor, executions[j].scheduledOffset);
  }

  // ------------------------------------------------------------------ schedules never reopen

  lemma MoveKeepsClosed(rules: Rules, db: DB, target: Key, next: map<Key, Schedule>, now: Instant,
                        finished: Option<Instant>, k: Key)
    requires SchedulesMove(rules, db, target, next, now, finished) && k in db.schedules
    ensures k in next && SamePlan(db.schedules[k], next[k])
    ensures db.schedules[k].status.Completed? ==> next[k].status.Completed?
    ensures db.schedules[k].status.Canceled? ==> next[k].status.Canceled? || next[k].status.Completed?
  {
  }

  /** A schedule keeps its plan; a canceled one can only become completed, a completed one
      stays completed. */
  lemma {:induction false} ClosedSchedulesStayClosed(rules: Rules, db: DB, log: seq<LogEntry>, k: Key)
    requires Consistent(rules, db) && k in db.schedules
    ensures var after := Run(rules, db, log).schedules;
            && k in after && SamePlan(db.schedules[k], after[k])
            && (db.schedules[k].status.Completed? ==> after[k].status.Completed?)
            && (db.schedules[k].status.Canceled? ==> after[k].status.Canceled? || after[k].status.Completed?)
  {
    if log != [] {
      var before, entry := log[..|log| - 1], log[|log| - 1];
      ClosedSchedulesStayClosed(rules, db, before, k);
      LogKeepsConsistent(rules, db, before);
      var mid := Run(rules, db, before);
      StepMovesSchedules(rules, mid, entry);
      MoveKeepsClosed(rules, mid, TargetSchedule(mid, entry), Run(rules, db, log).schedules,
                      entry.proposedAt, FinishedSlot(rules, mid, entry), k);
    }
  }
}
