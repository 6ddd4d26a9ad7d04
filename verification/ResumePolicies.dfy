/** What resuming a paused schedule leads to, by its catch-up policy. */
module ResumePolicies {
  import opened Base
  import opened Calendar
  import opened Recurrence
  import opened RecurrenceTheorems
  import opened Domain
  import opened Fsm
  import opened Changes
  import opened LogTheorems
  import opened Progress
  import opened SchedulerRules

  /** A paused recurring schedule whose recurrence can be computed. */
  ghost predicate Resumable(db: DB, k: Key) {
    && k.0 != "" && k.1 != "" && k in db.schedules && (db.schedules[k].tenantID, db.schedules[k].id) == k
    && var s := db.schedules[k];
    && s.status.Paused? && s.scheduleType.Recurring? && s.recurrence.Some? && !s.recurrence.value.UnknownCadence?
    && s.timezone.FixedZone?
  }

  ghost function Resumed(db: DB, k: Key, now: Instant): Applied {
    Step(RULES, db, LogEntry(ResumeSchedule(k.0, k.1), now))
  }

  /** The next run a resume has led to. */
  ghost predicate ResumesAt(db: DB, k: Key, now: Instant, t: Instant) {
    var r := Resumed(db, k, now);
    && r.Accepted? && r.db == db.(schedules := r.db.schedules)
    && k in r.db.schedules && r.db.schedules[k].status.Active? && r.db.schedules[k].nextRunAt == Some(t)
    && r.db.schedules[k] == db.schedules[k].(nextRunAt := Some(t), status := Active, updatedAt := now)
  }

  /** A resume fails where the schedule's executions cannot be scanned. */
  lemma ShadowedResumeFails(db: DB, k: Key, now: Instant)
    requires Resumable(db, k) && Shadowed(db, k)
    ensures Resumed(db, k, now) == Rejected(CommandError(StorageFailure, NoField))
  {
  }

  lemma ResumesWhere(db: DB, k: Key, now: Instant, t: Instant)
    requires Resumable(db, k) && ResumePoint(RULES, db, db.schedules[k], now) == Ok(Some(t))
    ensures ResumesAt(db, k, now, t)
  {
  }

  /** Skip-missed takes up at the least slot after now, exactly where that computation is right. */
  lemma SkipMissedResumesAfterNow(db: DB, k: Key, now: Instant)
    requires Resumable(db, k) && db.schedules[k].catchUpPolicy.SkipMissed? && !Shadowed(db, k)
    ensures var s := db.schedules[k];
            var t := SlotAfter(s.recurrence.value, s.timezone.offset, s.firstRunAt, now);
            && ResumesAt(db, k, now, t)
            && (IsLeastSlotAfter(s.recurrence.value, s.timezone.offset, s.firstRunAt, now, t)
                <==> if now < s.firstRunAt
                     then OnGrid(s.recurrence.value, s.timezone.offset, s.firstRunAt, s.firstRunAt)
                     else s.recurrence.value.Weekly? ==>
                       Weekday(now + s.timezone.offset) == Weekday(s.firstRunAt + s.timezone.offset))
  {
    var s := db.schedules[k];
    var t := SlotAfter(s.recurrence.value, s.timezone.offset, s.firstRunAt, now);
    AfterIsLeastIff(s.recurrence.value, s.timezone.offset, s.firstRunAt, now);
    assert NextRunAfter(s.recurrence, s.timezone, s.firstRunAt, now) == Ok(t);
    ResumesWhere(db, k, now, t);
  }

  /** Where latest-only takes up. */
  function LatestPoint(s: Schedule, now: Instant): Instant
    requires s.recurrence.Some? && !s.recurrence.value.UnknownCadence? && s.timezone.FixedZone?
  {
    var latest := LatestSlot(s.recurrence.value, s.timezone.offset, s.firstRunAt, now);
    if latest.None? then s.firstRunAt else latest.value
  }

  /** The greatest slot reached, or the first run before that. */
  lemma LatestOnlyResumesAtLatest(db: DB, k: Key, now: Instant)
    requires Resumable(db, k) && db.schedules[k].catchUpPolicy.CatchUpLatestOnly? && !Shadowed(db, k)
    ensures ResumesAt(db, k, now, LatestPoint(db.schedules[k], now))
    ensures var s, t := db.schedules[k], LatestPoint(db.schedules[k], now);
            if now < s.firstRunAt then t == s.firstRunAt
            else IsLatestSlot(s.recurrence.value, s.timezone.offset, s.firstRunAt, now, Some(t))
                 <==> SlotOnOrAfter(s.recurrence.value, s.timezone.offset, s.firstRunAt, s.firstRunAt) <= now
  {
    var s := db.schedules[k];
    LatestIsGreatestIff(s.recurrence.value, s.timezone.offset, s.firstRunAt, now);
    assert LatestRunOnOrBefore(s.recurrence, s.timezone, s.firstRunAt, now)
        == Ok(LatestSlot(s.recurrence.value, s.timezone.offset, s.firstRunAt, now));
    ResumesWhere(db, k, now, LatestPoint(s, now));
    LatestIsThere(s.recurrence.value, s.timezone.offset, s.firstRunAt, now);
  }

  lemma LatestIsThere(cadence: Cadence, offset: int, first: Instant, now: Instant)
    requires !cadence.UnknownCadence?
    ensures LatestSlot(cadence, offset, first, now).None? <==> now < first
  {
  }

  /** Once a slot has been reached, a latest-only resume lands on a slot that is already claimed if
      and only if the greatest slot at or before now is claimed. */
  lemma LatestOnlyLandsOnClaimedIff(db: DB, k: Key, now: Instant, g: Instant)
    requires Resumable(db, k) && db.schedules[k].catchUpPolicy.CatchUpLatestOnly? && !Shadowed(db, k)
    requires var s := db.schedules[k]; IsLatestSlot(s.recurrence.value, s.timezone.offset, s.firstRunAt, now, Some(g))
    ensures ResumesAt(db, k, now, g)
    ensures Resumed(db, k, now).db.schedules[k].nextRunAt.value in ClaimedSlots(Resumed(db, k, now).db, k)
            <==> g in ClaimedSlots(db, k)
  {
    var s := db.schedules[k];
    LatestOnlyResumesAtLatest(db, k, now);
    OnOrAfterIsLeastIff(s.recurrence.value, s.timezone.offset, s.firstRunAt, s.firstRunAt);
    assert Resumed(db, k, now).db.executions == db.executions;
  }

  // ------------------------------------------------------------------ a schedule that stalls

  ghost predicate IsOf(db: DB, j: Key, k: Key)
    requires j in db.executions
  {
    (j.0, db.executions[j].scheduleID) == k
  }

  /** Active, waiting for a slot that is already claimed, with no execution left to finish. */
  ghost predicate Stalled(db: DB, k: Key, t: Instant) {
    && k in db.schedules && db.schedules[k].status.Active? && db.schedules[k].nextRunAt == Some(t)
    && t in ClaimedSlots(db, k) && forall j :: j in db.executions && IsOf(db, j, k) ==>
                                                 IsTerminal(db.executions[j].status)
  }

  /** The executions of `k` are the same. */
  ghost predicate SameExecutionsOf(db: DB, next: DB, k: Key) {
    && (forall j :: j in db.executions && IsOf(db, j, k) ==>
                      j in next.executions && next.executions[j] == db.executions[j])
    && (forall j :: j in next.executions && IsOf(next, j, k) ==>
                      j in db.executions && next.executions[j] == db.executions[j])
  }

  predicate Touches(command: Command, k: Key) {
    || command == PauseSchedule(k.0, k.1) || command == ResumeSchedule(k.0, k.1) || command == CancelSchedule(k.0, k.1)
  }

  lemma StalledExecutions(rules: Rules, db: DB, c: Change, k: Key, t: Instant, next: DB)
    requires Stalled(db, k, t) && Allowed(rules, db, c) && FreshChange(db, c)
             && next.executions == ExecutionsAfter(db.executions, c)
    requires c.Claimed? ==> (c.e.tenantID, c.e.scheduleID) != k
    ensures SameExecutionsOf(db, next, k)
  {
  }

  /** An entry that neither touches the schedule nor finishes an execution of it leaves its status
      and next run. */
  lemma UntouchedSchedule(rules: Rules, db: DB, entry: LogEntry, k: Key)
    requires SelfKeyed(db) && k in db.schedules && db.schedules[k].status.Active? && !Touches(entry.command, k)
    requires FinishedSlot(rules, db, entry).Some? ==> TargetSchedule(db, entry) != k
    ensures var after := After(rules, db, entry).schedules;
            k in after && after[k].status.Active? && after[k].nextRunAt == db.schedules[k].nextRunAt
  {
    StepMovesSchedules(rules, db, entry);
    if TargetSchedule(db, entry) == k {
      match entry.command
      case UpdateSchedule(cmd) => UpdateKeepsNextRun(rules, db, cmd, entry.proposedAt);
      case _ => TargetCommands(rules, db, entry, k);
    }
  }

  lemma UpdateKeepsNextRun(rules: Rules, db: DB, cmd: UpdateScheduleCommand, now: Instant)
    requires SelfKeyed(db)
    ensures var r, k := ApplyUpdateSchedule(rules, db, cmd, now), (cmd.tenantID, cmd.id);
            r.Accepted? ==> k in db.schedules && k in r.db.schedules
                            && r.db.schedules[k].status == db.schedules[k].status
                            && r.db.schedules[k].nextRunAt == db.schedules[k].nextRunAt
  {
  }

  /** Any other entry that aims at an existing schedule without touching or finishing is rejected. */
  lemma TargetCommands(rules: Rules, db: DB, entry: LogEntry, k: Key)
    requires SelfKeyed(db) && k in db.schedules && TargetSchedule(db, entry) == k && !Touches(entry.command, k)
    requires !FinishedSlot(rules, db, entry).Some? && !entry.command.UpdateSchedule?
    ensures After(rules, db, entry).schedules == db.schedules
  {
    StepMovesSchedules(rules, db, entry);
    StepIsChange(rules, db, entry);
  }

  lemma UnclaimedStep(rules: Rules, db: DB, entry: LogEntry, k: Key, t: Instant)
    requires Consistent(rules, db) && Fresh(db, entry.command) && Stalled(db, k, t) && !Touches(entry.command, k)
    requires ClaimsFor(entry.command, k) ==> Step(rules, db, entry).Rejected?
    ensures Stalled(After(rules, db, entry), k, t) && SameExecutionsOf(db, After(rules, db, entry), k)
  {
    var c, next := ChangeOf(rules, db, entry), After(rules, db, entry);
    StepIsChange(rules, db, entry);
    FreshIsFreshChange(rules, db, entry);
    FinishTargetsItsSchedule(rules, db, entry);
    if c.Claimed? { ClaimEntry(rules, db, entry); }
    StalledExecutions(rules, db, c, k, t, next);
    UntouchedSchedule(rules, db, entry, k);
    SameSlots(db, next, k);
  }

  /** A claim of a slot that has an execution is rejected; any other that is accepted adds one. */
  lemma ClaimOfStalled(rules: Rules, db: DB, claim: ClaimExecutionCommand, at: Instant, k: Key)
    requires (claim.tenantID, claim.scheduleID) == k
    ensures var r := Step(rules, db, LogEntry(ClaimExecution(claim), at));
            && (claim.scheduledFor in ClaimedSlots(db, k) ==> r.Rejected?)
            && (r.Accepted? ==> exists j :: j in r.db.executions && IsOf(r.db, j, k)
                                            && !IsTerminal(r.db.executions[j].status))
  {
    var r := Step(rules, db, LogEntry(ClaimExecution(claim), at));
    if r.Accepted? {
      assert IsOf(r.db, (claim.tenantID, claim.id), k);
      CollisionFirstIff(db, k, claim.scheduledFor);
    }
  }

  /** A claim that passes the checks of its fields. */
  predicate IsFilledIn(cmd: ClaimExecutionCommand) {
    cmd.tenantID != "" && cmd.scheduleID != "" && cmd.id != "" && cmd.scheduledFor != ZERO_TIME && cmd.ownerNodeID != ""
  }

  lemma UnclaimedIsAccepted(rules: Rules, db: DB, claim: ClaimExecutionCommand, at: Instant)
    requires IsFilledIn(claim)
    requires var k := (claim.tenantID, claim.scheduleID); !Shadowed(db, k) && claim.scheduledFor !in ClaimedSlots(db, k)
    ensures Step(rules, db, LogEntry(ClaimExecution(claim), at)).Accepted?
  {
    CollisionFirstIff(db, (claim.tenantID, claim.scheduleID), claim.scheduledFor);
  }

  /** One entry, other than a pause, a resume or a cancel of it, wakes a stalled schedule if and only
      if it is an accepted claim, of a slot that has none: a claim read before the stall. */
  lemma StalledStepIff(rules: Rules, db: DB, entry: LogEntry, k: Key, t: Instant)
    requires Consistent(rules, db) && Fresh(db, entry.command) && Stalled(db, k, t) && !Touches(entry.command, k)
    ensures Stalled(After(rules, db, entry), k, t)
            <==> !(ClaimsFor(entry.command, k) && Step(rules, db, entry).Accepted?)
    ensures Stalled(After(rules, db, entry), k, t) ==> SameExecutionsOf(db, After(rules, db, entry), k)
    ensures ClaimsFor(entry.command, k) && entry.command.claim.scheduledFor in ClaimedSlots(db, k) ==>
              Step(rules, db, entry).Rejected?
  {
    if ClaimsFor(entry.command, k) {
      ClaimOfStalled(rules, db, entry.command.claim, entry.proposedAt, k);
    }
    if !(ClaimsFor(entry.command, k) && Step(rules, db, entry).Accepted?) {
      UnclaimedStep(rules, db, entry, k, t);
    }
  }

  lemma SameSlots(db: DB, next: DB, k: Key)
    requires SameExecutionsOf(db, next, k)
    ensures ClaimedSlots(next, k) == ClaimedSlots(db, k)
  {
    forall t | t in ClaimedSlots(db, k)
      ensures t in ClaimedSlots(next, k)
    {
      var j :| j in db.executions && (j.0, db.executions[j].scheduleID) == k && db.executions[j].scheduledFor == t;
      assert IsOf(db, j, k);
    }
    forall t | t in ClaimedSlots(next, k)
      ensures t in ClaimedSlots(db, k)
    {
      var j :| j in next.executions && (j.0, next.executions[j].scheduleID) == k
               && next.executions[j].scheduledFor == t;
      assert IsOf(next, j, k);
    }
  }

  /** Claims for `k` are for a slot already claimed, or use a next-run time some reader saw since `db`. */
  ghost predicate ClaimsSince(rules: Rules, db: DB, log: seq<LogEntry>, k: Key) {
    forall i :: 0 <= i < |log| && ClaimsFor(log[i].command, k) ==>
                  ClaimedOrSeen(rules, db, log[..i], log[i].command.claim.scheduledFor, k)
  }

  ghost predicate ClaimedOrSeen(rules: Rules, db: DB, log: seq<LogEntry>, t: Instant, k: Key) {
    t in ClaimedSlots(db, k) || exists j: nat :: j <= |log| && NextRunOf(Run(rules, db, log[..j]), k) == Some(t)
  }

  ghost predicate Untouched(log: seq<LogEntry>, k: Key) {
    forall i :: 0 <= i < |log| ==> !Touches(log[i].command, k)
  }

  lemma ClaimsPrefix(rules: Rules, db: DB, log: seq<LogEntry>, k: Key, n: nat)
    requires ClaimsSince(rules, db, log, k) && n <= |log|
    ensures ClaimsSince(rules, db, log[..n], k)
  {
    var before := log[..n];
    forall i | 0 <= i < n && ClaimsFor(before[i].command, k)
      ensures ClaimedOrSeen(rules, db, before[..i], before[i].command.claim.scheduledFor, k)
    {
      assert before[..i] == log[..i];
    }
  }

  lemma SincePrefix(rules: Rules, db: DB, log: seq<LogEntry>, k: Key, n: nat)
    requires FreshLog(rules, db, log) && ClaimsSince(rules, db, log, k) && Untouched(log, k) && n <= |log|
    ensures FreshLog(rules, db, log[..n]) && ClaimsSince(rules, db, log[..n], k) && Untouched(log[..n], k)
  {
    FreshPrefix(rules, db, log, n);
    ClaimsPrefix(rules, db, log, k, n);
  }

  lemma {:induction false} FreshPrefix(rules: Rules, db: DB, log: seq<LogEntry>, n: nat)
    requires FreshLog(rules, db, log) && n <= |log|
    ensures FreshLog(rules, db, log[..n])
  {
    if n < |log| {
      FreshPrefix(rules, db, log[..|log| - 1], n);
      assert log[..|log| - 1][..n] == log[..n];
    } else {
      assert log[..n] == log;
    }
  }

  /** Over every further log with fresh IDs, without a pause, resume or cancel of it and with claims
      from reads since the stall or for slots already claimed, a stalled schedule keeps waiting for
      the same slot, and no execution of it is ever added or changed. */
  lemma {:induction false} StalledForever(rules: Rules, db: DB, log: seq<LogEntry>, k: Key, t: Instant)
    requires Consistent(rules, db) && Stalled(db, k, t)
    requires FreshLog(rules, db, log) && ClaimsSince(rules, db, log, k) && Untouched(log, k)
    ensures Stalled(Run(rules, db, log), k, t) && SameExecutionsOf(db, Run(rules, db, log), k)
    decreases |log|
  {
    if log != [] {
      var before, entry := log[..|log| - 1], log[|log| - 1];
      SincePrefix(rules, db, log, k, |log| - 1);
      StalledForever(rules, db, before, k, t);
      LogKeepsConsistent(rules, db, before);
      SameSlots(db, Run(rules, db, before), k);
      if ClaimsFor(entry.command, k) {
        ClaimIsForAClaimedSlot(rules, db, log, k, t);
      }
      StalledStepIff(rules, Run(rules, db, before), entry, k, t);
    }
  }

  lemma {:induction false} ClaimIsForAClaimedSlot(rules: Rules, db: DB, log: seq<LogEntry>, k: Key, t: Instant)
    requires Consistent(rules, db) && Stalled(db, k, t) && log != [] && ClaimsFor(log[|log| - 1].command, k)
    requires FreshLog(rules, db, log) && ClaimsSince(rules, db, log, k) && Untouched(log, k)
    ensures log[|log| - 1].command.claim.scheduledFor in ClaimedSlots(db, k)
    decreases |log|, 0
  {
    var n := |log| - 1;
    var at := log[n].command.claim.scheduledFor;
    assert ClaimedOrSeen(rules, db, log[..n], at, k);
    if at !in ClaimedSlots(db, k) {
      var j: nat :| j <= n && NextRunOf(Run(rules, db, log[..n][..j]), k) == Some(at);
      assert log[..n][..j] == log[..j];
      SincePrefix(rules, db, log, k, j);
      StalledForever(rules, db, log[..j], k, t);
    }
  }

  /** So a latest-only resume that lands on a claimed slot, with nothing in flight, stalls. */
  lemma LandingOnClaimedStalls(db: DB, k: Key, now: Instant, t: Instant)
    requires SelfKeyed(db) && ResumesAt(db, k, now, t) && t in ClaimedSlots(db, k)
    requires forall j :: j in db.executions && IsOf(db, j, k) ==> IsTerminal(db.executions[j].status)
    ensures Stalled(Resumed(db, k, now).db, k, t)
  {
    var next := Resumed(db, k, now).db;
    assert next.executions == db.executions;
    assert ClaimedSlots(next, k) == ClaimedSlots(db, k);
  }

  // ------------------------------------------------------------------ pause and resume

  function Dozing(s: Schedule, at: Instant): Schedule { s.(status := Paused, nextRunAt := None, updatedAt := at) }

  lemma PausedTables(rules: Rules, db: DB, k: Key, at: Instant)
    requires SelfKeyed(db) && k.0 != "" && k.1 != "" && k in db.schedules && db.schedules[k].status.Active?
    ensures After(rules, db, LogEntry(PauseSchedule(k.0, k.1), at))
            == db.(schedules := db.schedules[k := Dozing(db.schedules[k], at)])
  {
  }

  lemma DozingResumesAt(rules: Rules, db: DB, k: Key, line: nat -> Instant, claimed: nat, ended: nat, s: Schedule,
                        asleep: DB, now: Instant)
    requires Gapless(db, k, line, claimed, ended) && k in db.schedules && db.schedules[k].status.Active?
             && !Shadowed(db, k)
    requires s.status.Paused? && (s.tenantID, s.id) == k && Planned(rules, s, line)
             && asleep == db.(schedules := db.schedules[k := s])
    ensures ResumePoint(rules, asleep, s, now) == Ok(db.schedules[k].nextRunAt)
  {
    assert ClaimedSlots(asleep, k) == ClaimedSlots(db, k) && TerminalSlots(asleep, k) == TerminalSlots(db, k);
    assert !Shadowed(asleep, k);
    ResumeAtFirstOpenSlot(rules, asleep, k, line, claimed, ended, now);
  }

  /** Pausing a catch-up-all schedule on its line of slots and resuming it gives it back its next
      run, whatever time has passed: only the time of the update differs. */
  lemma PauseThenResumeRestores(rules: Rules, db: DB, k: Key, line: nat -> Instant, claimed: nat, ended: nat,
                                pausedAt: Instant, resumedAt: Instant)
    requires SelfKeyed(db) && Gapless(db, k, line, claimed, ended) && k.0 != "" && k.1 != "" && !Shadowed(db, k)
    requires k in db.schedules && db.schedules[k].status.Active? && Planned(rules, db.schedules[k], line)
    ensures var paused := After(rules, db, LogEntry(PauseSchedule(k.0, k.1), pausedAt));
            After(rules, paused, LogEntry(ResumeSchedule(k.0, k.1), resumedAt))
            == db.(schedules := db.schedules[k := db.schedules[k].(updatedAt := resumedAt)])
  {
    var s := db.schedules[k];
    var asleep := Dozing(s, pausedAt);
    var paused := db.(schedules := db.schedules[k := asleep]);
    PausedTables(rules, db, k, pausedAt);
    PlanIsKept(rules, asleep, s, line);
    DozingResumesAt(rules, db, k, line, claimed, ended, asleep, paused, resumedAt);
    var resumed := After(rules, paused, LogEntry(ResumeSchedule(k.0, k.1), resumedAt));
    assert resumed.schedules == db.schedules[k := s.(updatedAt := resumedAt)];
  }
}
