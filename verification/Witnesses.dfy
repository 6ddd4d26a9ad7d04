/**
 Concrete inputs on which the code does not do what one might expect; the exact conditions are
 the theorems named beside them.
 */
module Witnesses {
  import opened Base
  import opened Calendar
  import opened Recurrence
  import opened Domain
  import opened Fsm
  import opened Changes
  import opened LogTheorems
  import opened SchedulerRules
  import opened ResumePolicies
  import opened ScheduleLife
  import opened Buckets
  import opened Storage
  import opened Worker

  // ------------------------------------------------------------------ first runs off their grid

  // The 15th of each month, first run on the 10th of January 1970 at midnight.

  const TENTH: Instant := 9 * SECONDS_PER_DAY
  const FIFTEENTH: PositiveInt := 15

  lemma January1970(day: int)
    requires 0 <= day < 31
    ensures MonthOfDay(day) == EPOCH_MONTH && MonthStart(EPOCH_MONTH) == 0 && DaysInMonth(EPOCH_MONTH) == 31
    ensures MonthStart(EPOCH_MONTH - 1) == -31 && DaysInMonth(EPOCH_MONTH - 1) == 31
  {
    MonthFollows(EPOCH_MONTH);
    MonthOfDayUnique(day, EPOCH_MONTH);
  }

  lemma InJanuary(t: Instant)
    requires 0 <= t < 31 * SECONDS_PER_DAY
    ensures MonthIndex(t) == EPOCH_MONTH && Day(t) == t / SECONDS_PER_DAY + 1
  {
    January1970(t / SECONDS_PER_DAY);
  }

  /** Asked on the 5th, before the first run, both forward computations answer the first run itself,
      which is not a slot (`OnOrAfterIsLeastIff`, `AfterIsLeastIff`). */
  lemma OffGridFirstRunIsAnswered()
    ensures var from := 4 * SECONDS_PER_DAY;
            && SlotOnOrAfter(Monthly(FIFTEENTH), 0, TENTH, from) == TENTH
               && SlotAfter(Monthly(FIFTEENTH), 0, TENTH, from) == TENTH
            && !IsSlot(Monthly(FIFTEENTH), 0, TENTH, TENTH)
  {
    InJanuary(TENTH);
    January1970(9);
  }

  /** Asked on the 12th, the backward computation answers the 15th of December, before the first run;
      there is no slot yet (`LatestIsGreatestIff`). */
  lemma LatestPrecedesTheFirstRun()
    ensures var now := 11 * SECONDS_PER_DAY;
            && LatestSlot(Monthly(FIFTEENTH), 0, TENTH, now) == Some(-17 * SECONDS_PER_DAY)
            && !IsLatestSlot(Monthly(FIFTEENTH), 0, TENTH, now, Some(-17 * SECONDS_PER_DAY))
  {
    var now := 11 * SECONDS_PER_DAY;
    InJanuary(now);
    January1970(11);
    assert TimeOfDay(TENTH) == 0;
    assert MonthlyCandidate(EPOCH_MONTH, FIFTEENTH, 0, 0) == 14 * SECONDS_PER_DAY;
    assert MonthlyCandidate(EPOCH_MONTH - 1, FIFTEENTH, 0, 0) == -17 * SECONDS_PER_DAY;
  }

  /** And that is where a latest-only resume on the 12th schedules it. */
  lemma LatestOnlyResumesBeforeTheFirstRun(db: DB, k: Key)
    requires Resumable(db, k) && !Shadowed(db, k) && db.schedules[k].catchUpPolicy.CatchUpLatestOnly?
    requires db.schedules[k].recurrence == Some(Monthly(FIFTEENTH)) && db.schedules[k].timezone == UTC
    requires db.schedules[k].firstRunAt == TENTH
    ensures ResumesAt(db, k, 11 * SECONDS_PER_DAY, -17 * SECONDS_PER_DAY)
  {
    LatestPrecedesTheFirstRun();
    LatestOnlyResumesAtLatest(db, k, 11 * SECONDS_PER_DAY);
  }

  // ------------------------------------------------------------------ advances in UTC

  // The 16th of each month at half past midnight, an hour east of UTC: 23:30 on the 15th in UTC.

  const HALF_PAST: Instant := 14 * SECONDS_PER_DAY + 84600
  const SIXTEENTH: PositiveInt := 16

  lemma HalfPastIsASlot()
    ensures IsSlot(Monthly(SIXTEENTH), 3600, HALF_PAST, HALF_PAST) && !ZoneAgrees(Monthly(SIXTEENTH), 3600, HALF_PAST)
  {
    InJanuary(HALF_PAST + 3600);
    January1970(15);
  }

  /** Finishing the first slot advances the schedule by one day in UTC instead of one month: to
      00:30 on the 17th, which is not a slot (`AdvanceLeavesTheGrid`). */
  lemma AdvanceMissesTheMonth(s: Schedule)
    requires s.scheduleType.Recurring? && s.status.Active? && s.recurrence == Some(Monthly(SIXTEENTH))
    requires s.timezone == FixedZone(3600) && s.firstRunAt == HALF_PAST
    ensures AdvancedSchedule(RULES, s, HALF_PAST) == Ok(s.(nextRunAt := Some(HALF_PAST + SECONDS_PER_DAY)))
    ensures !IsSlot(Monthly(SIXTEENTH), 3600, HALF_PAST, HALF_PAST + SECONDS_PER_DAY)
  {
    InJanuary(HALF_PAST);
    January1970(14);
    assert MonthlyCandidate(EPOCH_MONTH, SIXTEENTH, 84600, 0) == HALF_PAST + SECONDS_PER_DAY;
    assert SlotAfter(Monthly(SIXTEENTH), 0, HALF_PAST, HALF_PAST) == HALF_PAST + SECONDS_PER_DAY;
    assert NextRunAfter(s.recurrence, UTC, HALF_PAST, HALF_PAST) == Ok(HALF_PAST + SECONDS_PER_DAY);
    HalfPastIsASlot();
    AdvanceLeavesTheGrid(s, HALF_PAST);
  }

  // ------------------------------------------------------------------ logs

  /** Some log with fresh IDs leads to these tables. */
  ghost predicate Reachable(db: DB) {
    exists log :: FreshLog(RULES, EMPTY_DB, log) && Run(RULES, EMPTY_DB, log) == db
  }

  lemma EmptyIsReachable()
    ensures Reachable(EMPTY_DB)
  {
    assert FreshLog(RULES, EMPTY_DB, []) && Run(RULES, EMPTY_DB, []) == EMPTY_DB;
  }

  lemma ReachNext(db: DB, entry: LogEntry, next: DB)
    requires Reachable(db) && Fresh(db, entry.command) && After(RULES, db, entry) == next
    ensures Reachable(next)
  {
    var log :| FreshLog(RULES, EMPTY_DB, log) && Run(RULES, EMPTY_DB, log) == db;
    var longer := log + [entry];
    assert longer[..|log|] == log;
    assert FreshLog(RULES, EMPTY_DB, longer) && Run(RULES, EMPTY_DB, longer) == next;
  }

  const S: Key := ("t", "s")

  /** Every minute from the epoch on, in UTC. */
  function Minutely(id: string, policy: CatchUpPolicy): CreateScheduleCommand {
    CreateScheduleCommand(id, "t", "url", "", map[], Recurring, 0, Some(Interval(60)), UTC, 3, RetryBackoff(1, 1.0, 1),
                          None, policy)
  }

  function MinutelySchedule(id: string, policy: CatchUpPolicy): Schedule {
    NewSchedule(Minutely(id, policy), 0, 0)
  }

  function WithSchedule(db: DB, s: Schedule): DB { db.(schedules := db.schedules[(s.tenantID, s.id) := s]) }

  lemma Creating(db: DB, id: string, policy: CatchUpPolicy)
    requires Reachable(db) && id != "" && ("t", id) !in db.schedules
    ensures Reachable(WithSchedule(db, MinutelySchedule(id, policy)))
    ensures After(RULES, db, LogEntry(CreateSchedule(Minutely(id, policy)), 0))
            == WithSchedule(db, MinutelySchedule(id, policy))
  {
    var cmd := Minutely(id, policy);
    assert RULES.headersAllowed(cmd.headers);
    assert NextRunOnOrAfter(cmd.recurrence, cmd.timezone, 0, 0) == Ok(0);
    assert ApplyCreateSchedule(RULES, db, cmd, 0) == PutSchedule(db, MinutelySchedule(id, policy));
    ReachNext(db, LogEntry(CreateSchedule(cmd), 0), WithSchedule(db, MinutelySchedule(id, policy)));
  }

  function Asleep(s: Schedule): Schedule { Dozing(s, 3) }

  lemma Pausing(db: DB, s: Schedule)
    requires Reachable(db) && S in db.schedules && db.schedules[S] == s && s.status.Active? && (s.tenantID, s.id) == S
    ensures Reachable(WithSchedule(db, Asleep(s)))
  {
    assert ApplyPauseSchedule(db, "t", "s", 3) == PutSchedule(db, Asleep(s));
    ReachNext(db, LogEntry(PauseSchedule("t", "s"), 3), WithSchedule(db, Asleep(s)));
  }

  lemma Resuming(db: DB, s: Schedule, now: Instant, nextRun: Option<Instant>)
    requires Reachable(db) && S in db.schedules && db.schedules[S] == s && s.status.Paused? && (s.tenantID, s.id) == S
    requires ResumePoint(RULES, db, s, now) == Ok(nextRun)
    ensures Reachable(WithSchedule(db, s.(nextRunAt := nextRun, status := Active, updatedAt := now)))
  {
    var awake := s.(nextRunAt := nextRun, status := Active, updatedAt := now);
    assert ApplyResumeSchedule(RULES, db, "t", "s", now) == PutSchedule(db, awake);
    ReachNext(db, LogEntry(ResumeSchedule("t", "s"), now), WithSchedule(db, awake));
  }

  /** A schedule with an unknown catch-up policy, created, paused and resumed: active without a next
      run, and without an execution that could give it one (`ResumeLeavesNoneIff`,
      `AimlessUntilFinish`). */
  lemma UnknownPolicyHasNoNextRun() returns (db: DB)
    ensures Reachable(db) && S in db.schedules && db.schedules[S].status.Active? && Aimless(db.schedules[S])
            && db.executions == map[]
  {
    var s := MinutelySchedule("s", OtherPolicy);
    EmptyIsReachable();
    Creating(EMPTY_DB, "s", OtherPolicy);
    var created := WithSchedule(EMPTY_DB, s);
    Pausing(created, s);
    var paused := WithSchedule(created, Asleep(s));
    Resuming(paused, Asleep(s), 4, None);
    db := WithSchedule(paused, Asleep(s).(nextRunAt := None, status := Active, updatedAt := 4));
  }

  // ------------------------------------------------------------------ latest-only on a claimed slot

  lemma Claiming(db: DB, cmd: ClaimExecutionCommand, at: Instant)
    requires Reachable(db) && Fresh(db, ClaimExecution(cmd))
    requires IsFilledIn(cmd)
    requires !CollisionFirst(db, (cmd.tenantID, cmd.scheduleID), cmd.scheduledFor)
             && !Shadowed(db, (cmd.tenantID, cmd.scheduleID))
    ensures Reachable(PutExecution(db, NewExecution(RULES, cmd, at)))
    ensures Step(RULES, db, LogEntry(ClaimExecution(cmd), at))
         == Accepted(PutExecution(db, NewExecution(RULES, cmd, at)), ExecutionReply(NewExecution(RULES, cmd, at)))
  {
    var e := NewExecution(RULES, cmd, at);
    assert ApplyClaimExecution(RULES, db, cmd, at) == Accepted(PutExecution(db, e), ExecutionReply(e));
    ReachNext(db, LogEntry(ClaimExecution(cmd), at), PutExecution(db, e));
  }

  function Succeeding(e: Execution): Execution {
    e.(status := Succeeded, finalOutcome := "success", completedAt := Some(2), ownerNodeID := "")
  }

  lemma Completing(db: DB, e: Execution, s: Schedule, advanced: Schedule)
    requires Reachable(db) && (e.tenantID, e.id) in db.executions && db.executions[(e.tenantID, e.id)] == e
             && e.status.InFlight?
    requires e.tenantID == "t" && e.id != "" && (s.tenantID, s.id) == ("t", e.scheduleID)
    requires (s.tenantID, s.id) in db.schedules && db.schedules[(s.tenantID, s.id)] == s
    requires AdvancedSchedule(RULES, s, e.scheduledFor) == Ok(advanced)
             && (advanced.tenantID, advanced.id) == (s.tenantID, s.id)
    ensures Reachable(WithSchedule(PutExecution(db, Succeeding(e)), advanced))
  {
    var cmd := CompleteExecutionCommand("t", e.id, Succeeded, "success");
    var next := WithSchedule(PutExecution(db, Succeeding(e)), advanced);
    assert Finish(RULES, db, ("t", e.id), Succeeded, "success", 2) == Accepted(next, ExecutionReply(Succeeding(e)));
    assert ApplyCompleteExecution(RULES, db, cmd, 2) == Accepted(next, ExecutionReply(Succeeding(e)));
    ReachNext(db, LogEntry(CompleteExecution(cmd), 2), next);
  }

  const FIRST_CLAIM := ClaimExecutionCommand("x", "t", "s", 0, 0, "n")

  /** What the logs below need of the execution of the first slot. */
  predicate HasFirstSlot(e: Execution) {
    e.tenantID == "t" && e.id == "x" && e.scheduleID == "s" && e.scheduledFor == 0
  }

  lemma FirstSlotClaimed(policy: CatchUpPolicy) returns (db: DB, e: Execution)
    ensures Reachable(db) && db.schedules == map[S := MinutelySchedule("s", policy)] && db.attempts == map[]
    ensures db.executions == map[("t", "x") := e] && HasFirstSlot(e)
    ensures e.status.InFlight? && e.attemptCount == 0 && e.ownerNodeID == "n"
  {
    EmptyIsReachable();
    Creating(EMPTY_DB, "s", policy);
    var created := WithSchedule(EMPTY_DB, MinutelySchedule("s", policy));
    Claiming(created, FIRST_CLAIM, 1);
    e := NewExecution(RULES, FIRST_CLAIM, 1);
    db := PutExecution(created, e);
  }

  lemma FirstSlotEnded(policy: CatchUpPolicy) returns (db: DB, e: Execution)
    ensures Reachable(db) && db.schedules == map[S := MinutelySchedule("s", policy).(nextRunAt := Some(60))]
    ensures db.executions == map[("t", "x") := Succeeding(e)] && HasFirstSlot(e)
  {
    var s := MinutelySchedule("s", policy);
    var claimed;
    claimed, e := FirstSlotClaimed(policy);
    assert NextRunAfter(s.recurrence, UTC, 0, 0) == Ok(60);
    var advanced := s.(nextRunAt := Some(60));
    Completing(claimed, e, s, advanced);
    db := WithSchedule(PutExecution(claimed, Succeeding(e)), advanced);
  }

  /** A latest-only schedule whose first slot has been claimed and has ended, so that it waited for
      the second; paused and resumed half a minute after the epoch it is back at the first, and
      stalls (`LatestOnlyLandsOnClaimedIff`, `StalledForever`). */
  lemma LatestOnlyStalls() returns (earlier: DB, db: DB, e: Execution)
    ensures Reachable(earlier) && S in earlier.schedules && earlier.schedules[S].status.Active?
            && earlier.schedules[S].nextRunAt == Some(60)
    ensures Reachable(db) && Stalled(db, S, 0) && db.schedules[S].catchUpPolicy.CatchUpLatestOnly?
    ensures db.executions == map[("t", "x") := e] && HasFirstSlot(e) && e.status.Succeeded?
  {
    var first;
    earlier, first := FirstSlotEnded(CatchUpLatestOnly);
    e := Succeeding(first);
    var s := earlier.schedules[S];
    Pausing(earlier, s);
    var paused := WithSchedule(earlier, Asleep(s));
    assert LatestRunOnOrBefore(s.recurrence, UTC, 0, 30) == Ok(Some(0));
    assert ResumePoint(RULES, paused, Asleep(s), 30) == Ok(Some(0));
    Resuming(paused, Asleep(s), 30, Some(0));
    db := WithSchedule(paused, Asleep(s).(nextRunAt := Some(0), status := Active, updatedAt := 30));
    assert db.executions == earlier.executions;
    assert db.executions[("t", "x")].scheduledFor in ClaimedSlots(db, S);
  }

  const LATE_CLAIM := ClaimExecutionCommand("y", "t", "s", 60, 0, "n")

  /** There, a claim of the second slot, read before the pause and committed after the resume, still
      wakes it (`StalledStepIff`). */
  lemma StaleClaimWakes() returns (db: DB)
    ensures Reachable(db) && Stalled(db, S, 0)
            && !Stalled(After(RULES, db, LogEntry(ClaimExecution(LATE_CLAIM), 31)), S, 0)
  {
    var earlier, e;
    earlier, db, e := LatestOnlyStalls();
    assert "s" == e.scheduleID && !Shadowed(db, S);
    UnclaimedIsAccepted(RULES, db, LATE_CLAIM, 31);
    ClaimOfStalled(RULES, db, LATE_CLAIM, 31, S);
  }

  // ------------------------------------------------------------------ a canceled schedule

  const ONCE := Minutely("s", CatchUpAll).(scheduleType := Once, recurrence := None)

  lemma OnceClaimed() returns (db: DB, s: Schedule, e: Execution)
    ensures Reachable(db) && db.schedules == map[S := s] && db.executions == map[("t", "x") := e] && HasFirstSlot(e)
    ensures s.tenantID == "t" && s.id == "s" && s.status.Active? && s.scheduleType.Once? && e.status.InFlight?
  {
    EmptyIsReachable();
    s := NewSchedule(ONCE, 0, 0);
    assert RULES.headersAllowed(ONCE.headers);
    assert ApplyCreateSchedule(RULES, EMPTY_DB, ONCE, 0) == PutSchedule(EMPTY_DB, s);
    var created := WithSchedule(EMPTY_DB, s);
    ReachNext(EMPTY_DB, LogEntry(CreateSchedule(ONCE), 0), created);
    Claiming(created, FIRST_CLAIM, 1);
    e := NewExecution(RULES, FIRST_CLAIM, 1);
    db := PutExecution(created, e);
  }

  /** A once schedule is canceled while its execution is in flight, and completed when that ends
      (`CanceledEndsCompletedIff`). */
  lemma CanceledOnceEndsCompleted() returns (canceled: DB, db: DB)
    ensures Reachable(canceled) && S in canceled.schedules && canceled.schedules[S].status.Canceled?
    ensures Reachable(db) && S in db.schedules && db.schedules[S].status.Completed?
  {
    var claimed, s, e := OnceClaimed();
    var c := s.(status := Canceled, nextRunAt := None, updatedAt := 3);
    assert ApplyCancelSchedule(claimed, "t", "s", 3) == PutSchedule(claimed, c);
    canceled := WithSchedule(claimed, c);
    ReachNext(claimed, LogEntry(CancelSchedule("t", "s"), 3), canceled);
    Completing(canceled, e, c, c.(status := Completed));
    db := WithSchedule(PutExecution(canceled, Succeeding(e)), c.(status := Completed));
  }

  // ------------------------------------------------------------------ a late end

  /** While its first slot is in flight, a skip-missed schedule is paused and resumed half a minute
      after the epoch, and goes on with its second slot. */
  lemma SecondSlotBeside() returns (db: DB, e: Execution)
    ensures Reachable(db)
    ensures db.schedules == map[S := MinutelySchedule("s", SkipMissed).(nextRunAt := Some(60), updatedAt := 30)]
    ensures db.executions == map[("t", "x") := e] && HasFirstSlot(e) && e.status.InFlight?
  {
    var claimed;
    claimed, e := FirstSlotClaimed(SkipMissed);
    var s := MinutelySchedule("s", SkipMissed);
    Pausing(claimed, s);
    var paused := WithSchedule(claimed, Asleep(s));
    assert NextRunAfter(s.recurrence, UTC, 0, 30) == Ok(60);
    assert ResumePoint(RULES, paused, Asleep(s), 30) == Ok(Some(60));
    Resuming(paused, Asleep(s), 30, Some(60));
    db := WithSchedule(paused, Asleep(s).(nextRunAt := Some(60), status := Active, updatedAt := 30));
  }

  /** The second slot is claimed and ends. */
  lemma SecondSlotEnded() returns (db: DB, e: Execution, f: Execution)
    ensures Reachable(db)
    ensures db.schedules == map[S := MinutelySchedule("s", SkipMissed).(nextRunAt := Some(120), updatedAt := 30)]
    ensures db.executions == map[("t", "x") := e, ("t", "y") := f] && HasFirstSlot(e) && e.status.InFlight?
    ensures f.tenantID == "t" && f.id == "y" && f.scheduleID == "s" && f.scheduledFor == 60 && f.status.Succeeded?
  {
    var beside;
    beside, e := SecondSlotBeside();
    var claimed, f0 := LateSlotClaimed(beside, e);
    var s := beside.schedules[S];
    assert NextRunAfter(s.recurrence, UTC, 0, 60) == Ok(120);
    var advanced := s.(nextRunAt := Some(120));
    Completing(claimed, f0, s, advanced);
    f := Succeeding(f0);
    db := WithSchedule(PutExecution(claimed, f), advanced);
  }

  lemma LateSlotClaimed(before: DB, e: Execution) returns (db: DB, f: Execution)
    requires Reachable(before) && before.executions == map[("t", "x") := e] && HasFirstSlot(e)
    ensures Reachable(db) && db.schedules == before.schedules && db.executions == map[("t", "x") := e, ("t", "y") := f]
    ensures f.tenantID == "t" && f.id == "y" && f.scheduleID == "s" && f.scheduledFor == 60 && f.status.InFlight?
  {
    assert "s" == e.scheduleID && !Shadowed(before, S);
    Claiming(before, LATE_CLAIM, 61);
    f := NewExecution(RULES, LATE_CLAIM, 61);
    db := PutExecution(before, f);
  }

  /** When the first slot ends after that, the next run goes back from the third slot to the second,
      which has ended: the schedule stalls (`FinishLowersIff`, `FinishStallsIff`). */
  lemma LateFinishStalls() returns (before: DB, db: DB)
    ensures Reachable(before) && S in before.schedules && before.schedules[S].status.Active?
            && before.schedules[S].nextRunAt == Some(120)
    ensures Reachable(db) && Stalled(db, S, 60)
  {
    var e, f;
    before, e, f := SecondSlotEnded();
    var s := before.schedules[S];
    assert NextRunAfter(s.recurrence, UTC, 0, 0) == Ok(60);
    var advanced := s.(nextRunAt := Some(60));
    Completing(before, e, s, advanced);
    db := WithSchedule(PutExecution(before, Succeeding(e)), advanced);
    assert db.executions == map[("t", "x") := Succeeding(e), ("t", "y") := f];
    assert db.executions[("t", "y")].scheduledFor in ClaimedSlots(db, S);
  }

  // ------------------------------------------------------------------ a colon in a schedule's ID

  const COLON_CLAIM := ClaimExecutionCommand("x", "t", "a:b", 0, 0, "n")

  lemma ColonTables() returns (db: DB)
    ensures Reachable(db) && Shadowed(db, ("t", "a")) && ClaimedSlots(db, ("t", "a")) == {}
  {
    EmptyIsReachable();
    Creating(EMPTY_DB, "a", CatchUpAll);
    var one := WithSchedule(EMPTY_DB, MinutelySchedule("a", CatchUpAll));
    Creating(one, "a:b", CatchUpAll);
    var two := WithSchedule(one, MinutelySchedule("a:b", CatchUpAll));
    Claiming(two, COLON_CLAIM, 1);
    var e := NewExecution(RULES, COLON_CLAIM, 1);
    db := PutExecution(two, e);
    assert "a" + ":" <= "a:b";
    assert db.executions == map[("t", "x") := e] && Shadows(("t", "a"), e);
    assert Shadows(("t", "a"), db.executions[("t", "x")]);
    assert "a" != "a:b";
  }

  /** Schedules "a" and "a:b" of one tenant, and an execution of the latter: no slot of "a" can be
      claimed, for the scan of its executions fails (`ByScheduleIsExactIff`). */
  lemma ColonScheduleBlocksItsPrefix() returns (db: DB)
    ensures Reachable(db) && ClaimedSlots(db, ("t", "a")) == {}
    ensures forall cmd, at :: IsFilledIn(cmd) && cmd.tenantID == "t" && cmd.scheduleID == "a" ==>
              Step(RULES, db, LogEntry(ClaimExecution(cmd), at)) == Rejected(CommandError(StorageFailure, NoField))
  {
    db := ColonTables();
    forall cmd, at | IsFilledIn(cmd) && cmd.tenantID == "t" && cmd.scheduleID == "a"
      ensures Step(RULES, db, LogEntry(ClaimExecution(cmd), at)) == Rejected(CommandError(StorageFailure, NoField))
    {
      ShadowedClaimFails(RULES, db, cmd, at);
    }
  }

  lemma ShadowedClaimFails(rules: Rules, db: DB, cmd: ClaimExecutionCommand, at: Instant)
    requires IsFilledIn(cmd)
    requires Shadowed(db, (cmd.tenantID, cmd.scheduleID))
             && cmd.scheduledFor !in ClaimedSlots(db, (cmd.tenantID, cmd.scheduleID))
    ensures Step(rules, db, LogEntry(ClaimExecution(cmd), at)) == Rejected(CommandError(StorageFailure, NoField))
  {
    forall p | p in db.executions
      ensures !CollidesFirst(db, (cmd.tenantID, cmd.scheduleID), cmd.scheduledFor, p)
    {
      if p.0 == cmd.tenantID && db.executions[p].scheduleID == cmd.scheduleID {
        assert db.executions[p].scheduledFor in ClaimedSlots(db, (cmd.tenantID, cmd.scheduleID));
      }
    }
  }

  // ------------------------------------------------------------------ attempt IDs out of order

  /** What the worker of `node` records for execution "x", under an ID it has drawn. */
  function Recording(id: string, node: string, outcome: AttemptOutcome,
                     retryAt: Option<Instant>): RecordAttemptCommand {
    RecordAttemptCommand("t", "x", id, node, Some(1), Some(2), outcome, retryAt, "url", 200)
  }

  lemma RecordedBy(db: DB, e: Execution, cmd: RecordAttemptCommand)
    requires Reachable(db) && ("t", "x") in db.executions && db.executions[("t", "x")] == e
             && (e.tenantID, e.id) == ("t", "x")
    requires e.status.InFlight? && e.ownerNodeID == cmd.nodeID && RecordKeyOf(cmd) == ("t", "x")
             && ("t", cmd.id) !in db.attempts
    requires RecordFieldError(cmd).None?
    ensures Reachable(WithAttempt(db, e, NewAttempt(e, cmd), cmd.retryAt))
    ensures ApplyRecordAttempt(db, cmd).Accepted?
            && ApplyRecordAttempt(db, cmd).db == WithAttempt(db, e, NewAttempt(e, cmd), cmd.retryAt)
  {
    assert ApplyRecordAttempt(db, cmd) == Fsm.Recording(db, e, cmd);
    ReachNext(db, LogEntry(RecordAttempt(cmd), 2), WithAttempt(db, e, NewAttempt(e, cmd), cmd.retryAt));
  }

  function RecordKeyOf(cmd: RecordAttemptCommand): Key { (cmd.tenantID, cmd.executionID) }

  lemma AdoptedBy(db: DB, e: Execution, node: string)
    requires Reachable(db) && ("t", "x") in db.executions && db.executions[("t", "x")] == e
             && (e.tenantID, e.id) == ("t", "x")
    requires e.status.InFlight? && e.ownerNodeID != "" && node != "" && node != e.ownerNodeID
    ensures Reachable(PutExecution(db, e.(ownerNodeID := node)))
    ensures After(RULES, db, LogEntry(AdoptExecution(AdoptExecutionCommand("t", "x", e.ownerNodeID, node)), 2))
         == PutExecution(db, e.(ownerNodeID := node))
  {
    var cmd := AdoptExecutionCommand("t", "x", e.ownerNodeID, node);
    var adopted := e.(ownerNodeID := node);
    assert ApplyAdoptExecution(db, cmd) == Accepted(PutExecution(db, adopted), ExecutionReply(adopted));
    ReachNext(db, LogEntry(AdoptExecution(cmd), 2), PutExecution(db, adopted));
  }

  const RETRY := Recording("b", "n", OutcomeRetry, Some(5))
  const SUCCESS := Recording("a", "m", OutcomeSuccess, None)

  lemma RetryRecorded() returns (db: DB, e: Execution, first: Attempt)
    ensures Reachable(db) && db.executions == map[("t", "x") := e] && db.attempts == map[("t", "b") := first]
    ensures e.status.InFlight? && e.attemptCount == 1 && e.ownerNodeID == "n" && (e.tenantID, e.id) == ("t", "x")
    ensures first.outcome.OutcomeRetry? && first.retryAt == 5 && first.attemptNumber == 1
            && ExecutionKeyOf(first) == ("t", "x")
  {
    var claimed, e0 := FirstSlotClaimed(CatchUpAll);
    first := NewAttempt(e0, RETRY);
    RecordedBy(claimed, e0, RETRY);
    db := WithAttempt(claimed, e0, first, RETRY.retryAt);
    e := e0.(attemptCount := 1, lastAttemptID := "b", lastRetryAt := Some(5));
  }

  /** Node "n" records a retry under the ID "b"; node "m", its clock behind, adopts the execution and
      records a success under the smaller ID "a". */
  lemma OutOfOrder() returns (db: DB, e: Execution, first: Attempt, second: Attempt)
    ensures Reachable(db) && db.executions == map[("t", "x") := e]
            && db.attempts == map[("t", "b") := first, ("t", "a") := second]
    ensures e.status.InFlight? && e.lastAttemptID == "a" && e.lastRetryAt.None?
    ensures first.outcome.OutcomeRetry? && first.retryAt == 5 && first.attemptNumber == 1
            && ExecutionKeyOf(first) == ("t", "x")
    ensures second.outcome.OutcomeSuccess? && second.attemptNumber == 2 && ExecutionKeyOf(second) == ("t", "x")
  {
    var retried, e1;
    retried, e1, first := RetryRecorded();
    AdoptedBy(retried, e1, "m");
    var e2 := e1.(ownerNodeID := "m");
    var adopted := PutExecution(retried, e2);
    second := NewAttempt(e2, SUCCESS);
    RecordedBy(adopted, e2, SUCCESS);
    db := WithAttempt(adopted, e2, second, SUCCESS.retryAt);
    e := e2.(attemptCount := 2, lastAttemptID := "a", lastRetryAt := None);
  }

  lemma TwoIds(s: set<string>)
    requires s == {"a", "b"}
    ensures InOrder(s) == ["a", "b"]
  {
    var ids := ["a", "b"];
    assert Less(ids[0], ids[1]);
    SortedUnique(InOrder(s), ids);
  }

  /** There the tick would finalize the execution, while recovery reads it as one to be retried: its
      last attempt has not the greatest ID (`TickAgreesWithRecoveryIff`). */
  lemma TickAndRecoveryDisagree() returns (db: DB)
    ensures Reachable(db) && ("t", "x") in db.executions && !IdsIncrease(db.attempts)
    ensures TickDecision(db.executions[("t", "x")], 5).DispatchFinalize?
    ensures ClassifyOne(ListAttempts(db, "t", "x"), 5) == Some(RetryElapsed)
  {
    var e, first, second;
    db, e, first, second := OutOfOrder();
    assert AttemptIds(db, "t", "x") == {"a", "b"} by {
      assert db.attempts.Keys == {("t", "b"), ("t", "a")};
      forall id ensures id in AttemptIds(db, "t", "x") <==> id in {"a", "b"} {
        if id == "a" { assert ("t", "a") in db.attempts; }
        if id == "b" { assert ("t", "b") in db.attempts; }
      }
    }
    TwoIds(AttemptIds(db, "t", "x"));
    assert ListAttempts(db, "t", "x")[1] == first;
    OutOfOrderIds(db.attempts);
  }

  lemma OutOfOrderIds(attempts: map<Key, Attempt>)
    requires ("t", "b") in attempts && ("t", "a") in attempts
    requires ExecutionKeyOf(attempts[("t", "b")]) == ExecutionKeyOf(attempts[("t", "a")])
    requires attempts[("t", "b")].attemptNumber < attempts[("t", "a")].attemptNumber
    ensures !IdsIncrease(attempts)
  {
    assert !Less("b", "a");
  }
}
