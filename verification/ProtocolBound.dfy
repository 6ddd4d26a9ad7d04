/**
 The limit on attempts: while a schedule's MaxAttempts stays the same m, the attempts of its
 executions are retries below the limit and terminal failures at it, in any interleaving; with
 m > 0 no execution has more than m attempts, and one that failed for good has exactly m.
 */
module ProtocolBound {
  import opened Base
  import opened Calendar
  import opened Domain
  import opened Fsm
  import opened Changes
  import opened LogTheorems
  import opened Protocol
  import opened ProtocolSafety
  import opened ProtocolTheorems
  import opened ProtocolHonesty

  predicate OfSchedule(executions: map<Key, Execution>, k: Key, schedule: Key) {
    k in executions && (k.0, executions[k].scheduleID) == schedule
  }

  /** What the n-th attempt of an execution can come to under a limit of m; none, if m is not positive. */
  predicate KeepsLimit(outcome: AttemptOutcome, n: int, m: int) {
    && (outcome.OutcomeTerminalFailure? ==> 0 < m <= n)
    && (outcome.OutcomeRetry? ==> m <= 0 || n < m)
  }

  /** Every attempt does. */
  ghost predicate OutcomesFit(db: DB, schedule: Key, m: int) {
    forall a :: a in db.attempts && OfSchedule(db.executions, ExecutionKeyOf(db.attempts[a]), schedule) ==>
      KeepsLimit(db.attempts[a].outcome, db.attempts[a].attemptNumber, m)
  }

  /** Within the limit, and below it while the last attempt is to be retried. */
  ghost predicate CountsFit(executions: map<Key, Execution>, schedule: Key, m: int) {
    m > 0 ==> forall k :: OfSchedule(executions, k, schedule) ==>
      executions[k].attemptCount <= m && (executions[k].lastRetryAt.Some? ==> executions[k].attemptCount < m)
  }

  /** Snapshots name the schedule of the execution. */
  ghost predicate SnapshotsFit(executions: map<Key, Execution>, tasks: map<nat, Task>) {
    forall i :: i in tasks && IsRecorder(tasks[i]) ==>
      TaskKey(tasks[i]) in executions && executions[TaskKey(tasks[i])].scheduleID == tasks[i].exec.scheduleID
  }

  predicate PhaseBound(t: Task, m: int) {
    && (t.phase.Calling? ==> t.phase.schedule.maxAttempts == m)
    && (t.phase.Recording? ==> KeepsLimit(t.phase.record.outcome, t.exec.attemptCount + 1, m))
  }

  ghost predicate PhasesBound(tasks: map<nat, Task>, schedule: Key, m: int) {
    forall i :: i in tasks && ScheduleKeyOf(tasks[i].exec) == schedule ==> PhaseBound(tasks[i], m)
  }

  /** An attempt in doubt would keep it. */
  ghost predicate DoubtBound(executions: map<Key, Execution>, pending: set<LogEntry>, schedule: Key, m: int) {
    forall p, node, k :: (p in pending && RecordsFor(p, node, k) && OfSchedule(executions, k, schedule)
                          && Owns(executions, node, k)) ==>
      KeepsLimit(p.command.record.outcome, executions[k].attemptCount + 1, m)
  }

  ghost predicate Bounded(s: State, schedule: Key, m: int) {
    && CountsFit(s.db.executions, schedule, m) && SnapshotsFit(s.db.executions, s.tasks)
    && PhasesBound(s.tasks, schedule, m) && DoubtBound(s.db.executions, s.pending, schedule, m)
    && OutcomesFit(s.db, schedule, m)
  }

  /** Tasks that remain are unchanged, or record nothing any more. */
  ghost predicate Remaining(tasks: map<nat, Task>, before: map<nat, Task>) {
    forall i :: i in tasks ==>
      && i in before && tasks[i].exec == before[i].exec && tasks[i].kind == before[i].kind
      && (tasks[i].phase == before[i].phase || tasks[i].phase.Completing?)
  }

  lemma RemainingKeepsBound(s: State, next: State, schedule: Key, m: int)
    requires Bounded(s, schedule, m) && next.db == s.db && Remaining(next.tasks, s.tasks)
    requires forall p :: p in next.pending && p.command.RecordAttempt? ==> p in s.pending
    ensures Bounded(next, schedule, m)
  {
  }

  ghost predicate RecordBound(db: DB, c: Change, schedule: Key, m: int) {
    c.Recorded? && OfSchedule(db.executions, c.k, schedule) ==>
      KeepsLimit(c.attempt.outcome, db.executions[c.k].attemptCount + 1, m)
  }

  lemma ChangeKeepsCounts(rules: Rules, db: DB, c: Change, schedule: Key, m: int)
    requires CountsFit(db.executions, schedule, m)
    requires Allowed(rules, db, c) && FreshChange(db, c) && RecordFits(db, c) && RecordBound(db, c, schedule, m)
    ensures CountsFit(ExecutionsAfter(db.executions, c), schedule, m)
  {
  }

  lemma ChangeKeepsOutcomes(rules: Rules, db: DB, c: Change, next: DB, schedule: Key, m: int)
    requires OutcomesFit(db, schedule, m) && NumbersFit(db.executions, db.attempts)
    requires Allowed(rules, db, c) && FreshChange(db, c) && RecordBound(db, c, schedule, m)
    requires next.executions == ExecutionsAfter(db.executions, c) && next.attempts == AttemptsAfter(db.attempts, c)
    ensures OutcomesFit(next, schedule, m)
  {
    forall a | a in next.attempts && OfSchedule(next.executions, ExecutionKeyOf(next.attempts[a]), schedule)
      ensures KeepsLimit(next.attempts[a].outcome, next.attempts[a].attemptNumber, m)
    {
      if !(c.Recorded? && a == (c.attempt.tenantID, c.attempt.id)) {
        ChangeIsFinal(rules, db, c, ExecutionKeyOf(db.attempts[a]));
      }
    }
  }

  lemma ChangeKeepsSnapshots(rules: Rules, db: DB, c: Change, tasks: map<nat, Task>)
    requires SnapshotsFit(db.executions, tasks) && Allowed(rules, db, c) && FreshChange(db, c)
    ensures SnapshotsFit(ExecutionsAfter(db.executions, c), tasks)
  {
    forall i | i in tasks && IsRecorder(tasks[i])
      ensures var next := ExecutionsAfter(db.executions, c);
              TaskKey(tasks[i]) in next && next[TaskKey(tasks[i])].scheduleID == tasks[i].exec.scheduleID
    {
      ChangeIsFinal(rules, db, c, TaskKey(tasks[i]));
    }
  }

  lemma ChangeKeepsDoubtBound(rules: Rules, db: DB, c: Change, tasks: map<nat, Task>, pending: set<LogEntry>,
                              schedule: Key, m: int)
    requires DoubtBound(db.executions, pending, schedule, m) && PendingFits(db.executions, pending)
    requires Allowed(rules, db, c) && FreshChange(db, c) && Unrivalled(tasks, pending, c)
    ensures DoubtBound(ExecutionsAfter(db.executions, c), pending, schedule, m)
  {
    var next := ExecutionsAfter(db.executions, c);
    forall p, node, k | p in pending && RecordsFor(p, node, k) && OfSchedule(next, k, schedule) && Owns(next, node, k)
      ensures OfSchedule(db.executions, k, schedule) && Owns(db.executions, node, k) && next[k] == db.executions[k]
    {
      ChangeAtRecorder(rules, db, c, tasks, pending, node, k);
    }
  }

  lemma CommitKeepsBound(rules: Rules, s: State, entry: LogEntry, schedule: Key, m: int)
    requires CoreFits(rules, s) && Bounded(s, schedule, m) && Fresh(s.db, entry.command)
    requires var c := ChangeOf(rules, s.db, entry);
             Unrivalled(s.tasks, s.pending, c) && RecordFits(s.db, c) && RecordBound(s.db, c, schedule, m)
    ensures Bounded(s.(db := After(rules, s.db, entry)), schedule, m)
  {
    var c := ChangeOf(rules, s.db, entry);
    StepIsChange(rules, s.db, entry);
    FreshIsFreshChange(rules, s.db, entry);
    ChangeKeepsCounts(rules, s.db, c, schedule, m);
    ChangeKeepsSnapshots(rules, s.db, c, s.tasks);
    ChangeKeepsDoubtBound(rules, s.db, c, s.tasks, s.pending, schedule, m);
    ChangeKeepsOutcomes(rules, s.db, c, After(rules, s.db, entry), schedule, m);
  }

  // ------------------------------------------------------------------ one event

  lemma RemainingEvent(rules: Rules, s: State, event: Event)
    requires Enabled(s, event) && IsQuiet(event) && !event.ReadSchedule? && !event.Respond?
    ensures var next := Perform(rules, s, event);
            next.db == s.db && Remaining(next.tasks, s.tasks) && next.pending <= s.pending
  {
  }

  lemma ReadScheduleKeepsBound(rules: Rules, s: State, i: nat, schedule: Key, m: int)
    requires Bounded(s, schedule, m) && Enabled(s, ReadSchedule(i))
    requires schedule in s.db.schedules ==> s.db.schedules[schedule].maxAttempts == m
    ensures Bounded(Perform(rules, s, ReadSchedule(i)), schedule, m)
  {
  }

  lemma RespondKeepsBound(rules: Rules, s: State, event: Event, schedule: Key, m: int)
    requires CommandsFit(s) && Bounded(s, schedule, m) && Enabled(s, event) && event.Respond?
    ensures Bounded(Perform(rules, s, event), schedule, m)
  {
    var t := s.tasks[event.task];
    assert PhaseFits(t) && (ScheduleKeyOf(t.exec) == schedule ==> PhaseBound(t, m));
  }

  lemma QuietKeepsBound(rules: Rules, s: State, event: Event, schedule: Key, m: int)
    requires CommandsFit(s) && Bounded(s, schedule, m) && Enabled(s, event) && IsQuiet(event)
    requires schedule in s.db.schedules ==> s.db.schedules[schedule].maxAttempts == m
    ensures Bounded(Perform(rules, s, event), schedule, m)
  {
    if event.ReadSchedule? {
      ReadScheduleKeepsBound(rules, s, event.task, schedule, m);
    } else if event.Respond? {
      RespondKeepsBound(rules, s, event, schedule, m);
    } else {
      RemainingEvent(rules, s, event);
      RemainingKeepsBound(s, Perform(rules, s, event), schedule, m);
    }
  }

  lemma DecideKeepsBound(rules: Rules, s: State, entry: LogEntry, schedule: Key, m: int)
    requires Safe(rules, s) && Bounded(s, schedule, m) && Enabled(s, Decide(entry))
    ensures Bounded(Perform(rules, s, Decide(entry)), schedule, m)
  {
    var left, c := s.(pending := s.pending - {entry}), ChangeOf(rules, s.db, entry);
    RemainingKeepsBound(s, left, schedule, m);
    QuietKeepsCore(rules, s, left);
    DecidedIsUnrivalled(rules, s, entry);
    if c.Recorded? {
      AcceptedRecord(rules, s.db, entry);
    }
    CommitKeepsBound(rules, left, entry, schedule, m);
  }

  lemma UserCommandKeepsBound(rules: Rules, s: State, entry: LogEntry, schedule: Key, m: int)
    requires CoreFits(rules, s) && Bounded(s, schedule, m) && IsUserCommand(entry.command)
    ensures Bounded(s.(db := After(rules, s.db, entry)), schedule, m)
  {
    CommitKeepsBound(rules, s, entry, schedule, m);
  }

  lemma RecoverProposeKeepsBound(rules: Rules, s: State, n: string, fate: Fate, schedule: Key, m: int)
    requires Safe(rules, s) && Bounded(s, schedule, m) && Enabled(s, RecoverPropose(n, fate))
    ensures Bounded(Perform(rules, s, RecoverPropose(n, fate)), schedule, m)
  {
    if fate.Committed? {
      RecoveryCommitKeepsBound(rules, s, n, WorkerOf(s, n).intent.value, fate.at, schedule, m);
    } else {
      UncommittedRecovery(rules, s, n, fate);
      RemainingKeepsBound(s, Perform(rules, s, RecoverPropose(n, fate)), schedule, m);
    }
  }

  lemma RecoveryCommitKeepsBound(rules: Rules, s: State, n: string, intent: Command, at: Instant, schedule: Key, m: int)
    requires CoreFits(rules, s) && RolesFit(s) && WorkerOf(s, n).Recovering? && WorkerOf(s, n).intent == Some(intent)
    requires Bounded(s, schedule, m)
    ensures Bounded(Commit(rules, s, intent, at), schedule, m)
  {
    WorkerMayStay(s, n);
    RecoveredChange(rules, s.db, n, intent, at);
    var c := ChangeOf(rules, s.db, LogEntry(intent, at));
    if c.Adopted? {
      NoTasksNoRecorder(s, n, c.k);
    }
    CommitKeepsBound(rules, s, LogEntry(intent, at), schedule, m);
  }

  lemma ClaimKeepsBound(rules: Rules, s: State, n: string, claim: ClaimExecutionCommand, fate: Fate, i: nat,
                        schedule: Key, m: int)
    requires CoreFits(rules, s) && Bounded(s, schedule, m) && Enabled(s, TickClaim(n, claim, fate, i))
    ensures Bounded(Perform(rules, s, TickClaim(n, claim, fate, i)), schedule, m)
  {
    match fate
    case Committed(at) => ClaimCommitKeepsBound(rules, s, n, claim, at, i, schedule, m);
    case InDoubt(at) => DoubtKeepsBound(s, ClaimExecution(claim), at, schedule, m);
    case Lost =>
  }

  lemma ClaimCommitKeepsBound(rules: Rules, s: State, n: string, claim: ClaimExecutionCommand, at: Instant, i: nat,
                              schedule: Key, m: int)
    requires CoreFits(rules, s) && Bounded(s, schedule, m) && Fresh(s.db, ClaimExecution(claim))
             && i !in s.tasks
    ensures Bounded(AfterClaim(rules, s, n, claim, Committed(at), i), schedule, m)
  {
    CommittedClaim(rules, s.db, claim, at);
    CommitKeepsBound(rules, s, LogEntry(ClaimExecution(claim), at), schedule, m);
    if ApplyClaimExecution(rules, s.db, claim, at).Accepted? {
      var e, mid := NewExecution(rules, claim, at), Commit(rules, s, ClaimExecution(claim), at);
      FirstTaskKeepsBound(mid, i, Task(n, FreshFire, e, Queued), schedule, m);
    }
  }

  lemma FirstTaskKeepsBound(s: State, i: nat, task: Task, schedule: Key, m: int)
    requires Bounded(s, schedule, m) && task.phase.Queued? && TaskKey(task) in s.db.executions
    requires s.db.executions[TaskKey(task)].scheduleID == task.exec.scheduleID
    ensures Bounded(s.(tasks := s.tasks[i := task]), schedule, m)
  {
    NewTasksKeepBound(s, map[i := task], schedule, m);
    assert s.tasks + map[i := task] == s.tasks[i := task];
  }

  /** New tasks start queued, with the schedule of their execution. */
  lemma NewTasksKeepBound(s: State, added: map<nat, Task>, schedule: Key, m: int)
    requires Bounded(s, schedule, m)
    requires forall i :: i in added ==>
      added[i].phase.Queued? && TaskKey(added[i]) in s.db.executions
      && s.db.executions[TaskKey(added[i])].scheduleID == added[i].exec.scheduleID
    ensures Bounded(s.(tasks := s.tasks + added), schedule, m)
  {
  }

  lemma ScanKeepsBound(rules: Rules, s: State, n: string, tenant: string, now: Instant, chosen: map<nat, Key>,
                       schedule: Key, m: int)
    requires SelfKeyed(s.db) && Bounded(s, schedule, m) && Enabled(s, TickScan(n, tenant, now, chosen))
    ensures Bounded(Perform(rules, s, TickScan(n, tenant, now, chosen)), schedule, m)
  {
    NewTasksKeepBound(s, ScanTasks(s.db, n, now, chosen), schedule, m);
  }

  lemma CompleteKeepsBound(rules: Rules, s: State, i: nat, fate: Fate, schedule: Key, m: int)
    requires CoreFits(rules, s) && Bounded(s, schedule, m) && Enabled(s, ProposeComplete(i, fate))
    ensures Bounded(Perform(rules, s, ProposeComplete(i, fate)), schedule, m)
  {
    CompleteStep(rules, s, i, fate);
    RemainingKeepsBound(s, EndTask(s, i), schedule, m);
    if fate.Committed? {
      EndTaskKeepsCore(rules, s, i);
      FinishKeepsBound(rules, EndTask(s, i), CompleteExecution(s.tasks[i].phase.complete), fate.at, schedule, m);
    } else if fate.InDoubt? {
      DoubtKeepsBound(EndTask(s, i), CompleteExecution(s.tasks[i].phase.complete), fate.at, schedule, m);
    }
  }

  lemma DoubtKeepsBound(s: State, command: Command, at: Instant, schedule: Key, m: int)
    requires Bounded(s, schedule, m) && !command.RecordAttempt?
    ensures Bounded(Doubt(s, command, at), schedule, m)
  {
    RemainingKeepsBound(s, Doubt(s, command, at), schedule, m);
  }

  lemma FinishKeepsBound(rules: Rules, s: State, command: Command, at: Instant, schedule: Key, m: int)
    requires CoreFits(rules, s) && Bounded(s, schedule, m) && command.CompleteExecution?
    ensures Bounded(Commit(rules, s, command, at), schedule, m)
  {
    CommitKeepsBound(rules, s, LogEntry(command, at), schedule, m);
  }

  /** The task's own number is the one its attempt gets. */
  lemma RecorderIsBound(rules: Rules, s: State, i: nat, schedule: Key, m: int)
    requires CoreFits(rules, s) && CommandsFit(s) && Bounded(s, schedule, m)
    requires i in s.tasks && s.tasks[i].phase.Recording? && Owns(s.db.executions, s.tasks[i].node, TaskKey(s.tasks[i]))
    requires OfSchedule(s.db.executions, TaskKey(s.tasks[i]), schedule)
    ensures KeepsLimit(s.tasks[i].phase.record.outcome, s.db.executions[TaskKey(s.tasks[i])].attemptCount + 1, m)
  {
    assert PhaseFits(s.tasks[i]) && IsRecorder(s.tasks[i]);
    assert PhaseBound(s.tasks[i], m);
  }

  lemma RecordCommitKeepsBound(rules: Rules, s: State, i: nat, at: Instant, left: map<nat, Task>, schedule: Key, m: int)
    requires CoreFits(rules, s) && CommandsFit(s) && Bounded(s, schedule, m)
    requires i in s.tasks && s.tasks[i].phase.Recording? && Fresh(s.db, RecordAttempt(s.tasks[i].phase.record))
    requires Remaining(left, s.tasks) && Fewer(left, s.tasks) && (i in left ==> !IsRecorder(left[i]))
    ensures Bounded(Commit(rules, s.(tasks := left), RecordAttempt(s.tasks[i].phase.record), at), schedule, m)
  {
    var entry := LogEntry(RecordAttempt(s.tasks[i].phase.record), at);
    var c := ChangeOf(rules, s.db, entry);
    assert PhaseFits(s.tasks[i]);
    if c.Recorded? {
      AcceptedRecord(rules, s.db, entry);
      LoneTask(s.db.executions, s.tasks, s.pending, i, left);
      if OfSchedule(s.db.executions, c.k, schedule) {
        RecorderIsBound(rules, s, i, schedule, m);
      }
    }
    QuietKeepsCore(rules, s, s.(tasks := left));
    RemainingKeepsBound(s, s.(tasks := left), schedule, m);
    CommitKeepsBound(rules, s.(tasks := left), entry, schedule, m);
  }

  lemma DoubtedRecordKeepsBound(rules: Rules, s: State, i: nat, at: Instant, schedule: Key, m: int)
    requires CoreFits(rules, s) && CommandsFit(s) && Bounded(s, schedule, m)
    requires i in s.tasks && s.tasks[i].phase.Recording?
    ensures Bounded(EndTask(Doubt(s, RecordAttempt(s.tasks[i].phase.record), at), i), schedule, m)
  {
    var entry := LogEntry(RecordAttempt(s.tasks[i].phase.record), at);
    assert PhaseFits(s.tasks[i]);
    RemainingKeepsBound(s, EndTask(s, i), schedule, m);
    forall node, k | RecordsFor(entry, node, k) && OfSchedule(s.db.executions, k, schedule)
                     && Owns(s.db.executions, node, k)
      ensures KeepsLimit(entry.command.record.outcome, s.db.executions[k].attemptCount + 1, m)
    {
      RecorderIsBound(rules, s, i, schedule, m);
    }
  }

  lemma RecordLeavesRemaining(rules: Rules, s: State, i: nat, fate: Fate)
    requires Enabled(s, ProposeRecord(i, fate))
    ensures Remaining(Perform(rules, s, ProposeRecord(i, fate)).tasks, s.tasks)
  {
  }

  lemma RecordKeepsBound(rules: Rules, s: State, i: nat, fate: Fate, schedule: Key, m: int)
    requires CoreFits(rules, s) && CommandsFit(s) && Bounded(s, schedule, m)
             && Enabled(s, ProposeRecord(i, fate))
    ensures Bounded(Perform(rules, s, ProposeRecord(i, fate)), schedule, m)
  {
    var next := Perform(rules, s, ProposeRecord(i, fate));
    RecordStep(rules, s, i, fate);
    RecordLeavesRemaining(rules, s, i, fate);
    match fate
    case Committed(at) => RecordCommitKeepsBound(rules, s, i, at, next.tasks, schedule, m);
    case InDoubt(at) => DoubtedRecordKeepsBound(rules, s, i, at, schedule, m);
    case Lost => RemainingKeepsBound(s, next, schedule, m);
  }

  lemma ActiveEventKeepsBound(rules: Rules, s: State, event: Event, schedule: Key, m: int)
    requires Safe(rules, s) && Bounded(s, schedule, m) && Enabled(s, event) && !IsQuiet(event)
    ensures Bounded(Perform(rules, s, event), schedule, m)
  {
    match event
    case Decide(entry) => DecideKeepsBound(rules, s, entry, schedule, m);
    case UserCommand(entry) => UserCommandKeepsBound(rules, s, entry, schedule, m);
    case RecoverPropose(n, fate) => RecoverProposeKeepsBound(rules, s, n, fate, schedule, m);
    case TickClaim(n, claim, fate, i) => ClaimKeepsBound(rules, s, n, claim, fate, i, schedule, m);
    case TickScan(n, tenant, now, chosen) => ScanKeepsBound(rules, s, n, tenant, now, chosen, schedule, m);
    case ProposeRecord(i, fate) => RecordKeepsBound(rules, s, i, fate, schedule, m);
    case ProposeComplete(i, fate) => CompleteKeepsBound(rules, s, i, fate, schedule, m);
  }

  lemma EventKeepsBound(rules: Rules, s: State, event: Event, schedule: Key, m: int)
    requires Safe(rules, s) && Bounded(s, schedule, m) && Enabled(s, event)
    requires schedule in s.db.schedules ==> s.db.schedules[schedule].maxAttempts == m
    ensures Bounded(Perform(rules, s, event), schedule, m)
  {
    if IsQuiet(event) {
      QuietKeepsBound(rules, s, event, schedule, m);
    } else {
      ActiveEventKeepsBound(rules, s, event, schedule, m);
    }
  }

  /** The schedule's limit is m whenever the schedule is there. */
  ghost predicate LimitStays(rules: Rules, events: seq<Event>, schedule: Key, m: int) {
    forall i :: 0 <= i <= |events| ==>
      var schedules := RunFrom(rules, START, events[..i]).db.schedules;
      schedule in schedules ==> schedules[schedule].maxAttempts == m
  }

  lemma NextIsBounded(rules: Rules, s: State, event: Event, schedule: Key, m: int)
    requires Safe(rules, s) && Bounded(s, schedule, m)
    requires schedule in s.db.schedules ==> s.db.schedules[schedule].maxAttempts == m
    ensures Bounded(Next(rules, s, event), schedule, m)
  {
    if Enabled(s, event) {
      EventKeepsBound(rules, s, event, schedule, m);
    }
  }

  lemma LimitStaysBefore(rules: Rules, events: seq<Event>, schedule: Key, m: int)
    requires events != [] && LimitStays(rules, events, schedule, m)
    ensures var before := events[..|events| - 1];
            var schedules := RunFrom(rules, START, before).db.schedules;
            LimitStays(rules, before, schedule, m) && (schedule in schedules ==> schedules[schedule].maxAttempts == m)
  {
    var before := events[..|events| - 1];
    forall i | 0 <= i <= |before|
      ensures before[..i] == events[..i]
    {
    }
    assert before[..|before|] == before;
  }

  lemma {:induction false} RunIsBounded(rules: Rules, events: seq<Event>, schedule: Key, m: int)
    requires LimitStays(rules, events, schedule, m)
    ensures Bounded(RunFrom(rules, START, events), schedule, m)
  {
    if events != [] {
      var before := events[..|events| - 1];
      LimitStaysBefore(rules, events, schedule, m);
      RunIsBounded(rules, before, schedule, m);
      EveryRunIsSafe(rules, before);
      NextIsBounded(rules, RunFrom(rules, START, before), events[|events| - 1], schedule, m);
    }
  }

  /** With MaxAttempts unchanged at m > 0, an execution never has more than m attempts. */
  lemma AttemptsAreBounded(rules: Rules, events: seq<Event>, schedule: Key, m: int, k: Key)
    requires m > 0 && LimitStays(rules, events, schedule, m)
    requires OfSchedule(RunFrom(rules, START, events).db.executions, k, schedule)
    ensures RunFrom(rules, START, events).db.executions[k].attemptCount <= m
  {
    RunIsBounded(rules, events, schedule, m);
  }

  /** With MaxAttempts unchanged at m, whatever m is: an attempt on record is a terminal failure only
      at the limit, and to be retried only below it. */
  lemma OutcomesFollowTheLimit(rules: Rules, events: seq<Event>, schedule: Key, m: int, a: Key)
    requires LimitStays(rules, events, schedule, m)
    requires var db := RunFrom(rules, START, events).db;
             a in db.attempts && OfSchedule(db.executions, ExecutionKeyOf(db.attempts[a]), schedule)
    ensures var attempt := RunFrom(rules, START, events).db.attempts[a];
            && (attempt.outcome.OutcomeTerminalFailure? ==> m > 0 && attempt.attemptNumber >= m)
            && (attempt.outcome.OutcomeRetry? ==> m <= 0 || attempt.attemptNumber < m)
  {
    RunIsBounded(rules, events, schedule, m);
  }

  /** So an execution that failed for good has used up its m attempts, and m is positive: nothing
      fails for good without a limit, or early. */
  lemma FailuresUseUpTheLimit(rules: Rules, events: seq<Event>, schedule: Key, m: int, k: Key)
    requires LimitStays(rules, events, schedule, m)
    requires OfSchedule(RunFrom(rules, START, events).db.executions, k, schedule)
    requires var e := RunFrom(rules, START, events).db.executions[k]; IsTerminal(e.status) && !e.status.Succeeded?
    ensures m > 0 && RunFrom(rules, START, events).db.executions[k].attemptCount == m
  {
    var db := RunFrom(rules, START, events).db;
    EveryRunIsSafe(rules, events);
    ExecutionsEndAsTheyEarned(rules, events, k);
    var last := (k.0, db.executions[k].lastAttemptID);
    assert last in db.attempts && ExecutionKeyOf(db.attempts[last]) == k;
    OutcomesFollowTheLimit(rules, events, schedule, m, last);
    AttemptsAreBounded(rules, events, schedule, m, k);
  }
}
