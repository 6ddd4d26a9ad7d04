/**
 Gapless progress: a recurring schedule that catches up on everything claims its slots one
 after another, none skipped and none overtaken, over every log in which claims come from
 next-run times that were read at some point, however long ago.
 */
module Progress {
  import opened Base
  import opened Calendar
  import opened Recurrence
  import opened RecurrenceTheorems
  import opened Domain
  import opened Fsm
  import opened Changes
  import opened LogTheorems

  /** The first `n` slots. */
  ghost function FirstSlots(line: nat -> Instant, n: nat): set<Instant> {
    set i: nat | 0 <= i < n :: line(i)
  }

  lemma FirstSlotsGrow(line: nat -> Instant, n: nat)
    ensures FirstSlots(line, n + 1) == FirstSlots(line, n) + {line(n)}
  {
    assert line(n) in FirstSlots(line, n + 1);
  }

  /** The recurring, catch-up-all schedule under study and its line of slots: what create,
      resume and the advance after an execution compute is the next slot on the line. */
  ghost predicate Planned(rules: Rules, s: Schedule, line: nat -> Instant) {
    && s.scheduleType.Recurring? && s.catchUpPolicy.CatchUpAll?
    && Increasing(line)
    && rules.onOrAfter(s.recurrence, s.timezone, s.firstRunAt, s.firstRunAt) == Ok(line(0))
    && (forall n: nat :: rules.after(s.recurrence, s.timezone, s.firstRunAt, line(n)) == Ok(line(n + 1)))
    && (forall n: nat :: rules.after(s.recurrence, UTC, s.firstRunAt, line(n)) == Ok(line(n + 1)))
  }

  lemma PlanIsKept(rules: Rules, a: Schedule, b: Schedule, line: nat -> Instant)
    requires SamePlan(a, b) && Planned(rules, b, line)
    ensures Planned(rules, a, line)
  {
  }

  /** The first `claimed` slots are claimed, the first `ended` of them have ended, at most one
      is in flight, and an active schedule waits for the first slot not ended. */
  ghost predicate Gapless(db: DB, k: Key, line: nat -> Instant, claimed: nat, ended: nat) {
    && ended <= claimed <= ended + 1
    && ClaimedSlots(db, k) == FirstSlots(line, claimed)
    && TerminalSlots(db, k) == FirstSlots(line, ended)
    && (k !in db.schedules ==> claimed == 0)
    && (k in db.schedules && db.schedules[k].status.Active? ==> db.schedules[k].nextRunAt == Some(line(ended)))
  }

  // ------------------------------------------------------------------ the slot sets under a change

  lemma ClaimedAfter(rules: Rules, db: DB, c: Change, k: Key, next: DB)
    requires Allowed(rules, db, c) && FreshChange(db, c) && SelfKeyed(db)
             && next.executions == ExecutionsAfter(db.executions, c)
    ensures ClaimedSlots(next, k)
         == ClaimedSlots(db, k) + (if c.Claimed? && (c.e.tenantID, c.e.scheduleID) == k then {c.e.scheduledFor} else {})
  {
    forall t ensures t in ClaimedSlots(next, k)
       <==> t in ClaimedSlots(db, k) || (c.Claimed? && (c.e.tenantID, c.e.scheduleID) == k && c.e.scheduledFor == t)
    {
      if t in ClaimedSlots(db, k) {
        var j :| j in db.executions && (j.0, db.executions[j].scheduleID) == k && db.executions[j].scheduledFor == t;
        assert j in next.executions && (j.0, next.executions[j].scheduleID) == k
               && next.executions[j].scheduledFor == t;
      }
      if c.Claimed? && (c.e.tenantID, c.e.scheduleID) == k && c.e.scheduledFor == t {
        var j := (c.e.tenantID, c.e.id);
        assert j in next.executions && (j.0, next.executions[j].scheduleID) == k
               && next.executions[j].scheduledFor == t;
      }
    }
  }

  lemma TerminalAfter(rules: Rules, db: DB, c: Change, k: Key, next: DB)
    requires Allowed(rules, db, c) && FreshChange(db, c) && SelfKeyed(db)
             && next.executions == ExecutionsAfter(db.executions, c)
    ensures TerminalSlots(next, k)
         == TerminalSlots(db, k)
            + (if c.Finished? && (c.k.0, db.executions[c.k].scheduleID) == k then {db.executions[c.k].scheduledFor}
               else {})
  {
    forall t ensures t in TerminalSlots(next, k)
       <==> t in TerminalSlots(db, k)
            || (c.Finished? && (c.k.0, db.executions[c.k].scheduleID) == k && db.executions[c.k].scheduledFor == t)
    {
      if t in TerminalSlots(db, k) {
        var j :| j in db.executions && (j.0, db.executions[j].scheduleID) == k && IsTerminal(db.executions[j].status)
                 && db.executions[j].scheduledFor == t;
        assert j in next.executions && next.executions[j] == db.executions[j];
      }
      if c.Finished? && (c.k.0, db.executions[c.k].scheduleID) == k && db.executions[c.k].scheduledFor == t {
        assert c.k in next.executions && IsTerminal(next.executions[c.k].status)
               && next.executions[c.k].scheduledFor == t;
      }
    }
  }

  /** An execution that has not ended holds the slot of no ended one. */
  lemma OpenSlotNotEnded(db: DB, j: Key, k: Key)
    requires OnePerSlot(db.executions) && j in db.executions && (j.0, db.executions[j].scheduleID) == k
    requires !IsTerminal(db.executions[j].status)
    ensures db.executions[j].scheduledFor in ClaimedSlots(db, k)
    ensures db.executions[j].scheduledFor !in TerminalSlots(db, k)
  {
    forall i | i in db.executions && (i.0, db.executions[i].scheduleID) == k && IsTerminal(db.executions[i].status)
      ensures db.executions[i].scheduledFor != db.executions[j].scheduledFor
    {
      assert i != j;
    }
  }

  lemma SlotIndex(line: nat -> Instant, t: Instant, n: nat) returns (i: nat)
    requires t in FirstSlots(line, n)
    ensures i < n && line(i) == t
  {
    i :| 0 <= i < n && line(i) == t;
  }

  /** A slot among the first n + 1 but not among the first n is slot n. */
  lemma OnlyTheNextSlot(line: nat -> Instant, t: Instant, n: nat)
    requires t in FirstSlots(line, n + 1) && t !in FirstSlots(line, n)
    ensures t == line(n)
  {
    FirstSlotsGrow(line, n);
  }

  lemma LastOfFirstSlots(line: nat -> Instant, n: nat, anchor: Option<Instant>)
    requires Increasing(line) && IsMostRecent(FirstSlots(line, n), anchor)
    ensures n == 0 ==> anchor == None
    ensures n > 0 ==> anchor == Some(line(n - 1))
  {
    if n > 0 {
      assert line(n - 1) in FirstSlots(line, n);
      var i := SlotIndex(line, anchor.value, n);
      if i < n - 1 {
        IncreasingOrder(line, i, n - 1);
      }
    }
  }

  // ------------------------------------------------------------------ one entry

  /** Where a resumed schedule takes up, unless its executions cannot be scanned. */
  lemma ResumeAtFirstOpenSlot(rules: Rules, db: DB, k: Key, line: nat -> Instant, claimed: nat, ended: nat,
                              now: Instant)
    requires Gapless(db, k, line, claimed, ended) && k in db.schedules && Planned(rules, db.schedules[k], line)
    requires (db.schedules[k].tenantID, db.schedules[k].id) == k
    ensures ResumePoint(rules, db, db.schedules[k], now)
         == if Shadowed(db, k) then Err(CommandError(StorageFailure, NoField)) else Ok(Some(line(ended)))
  {
    var anchor := MostRecentTerminal(db, k);
    LastOfFirstSlots(line, ended, anchor);
    if ended > 0 {
      var s := db.schedules[k];
      assert rules.after(s.recurrence, s.timezone, s.firstRunAt, line(ended - 1)) == Ok(line(ended - 1 + 1));
    }
  }

  /** The schedule's row after an entry that finishes none of its executions. */
  lemma QuietMoveKeepsNextRun(rules: Rules, db: DB, target: Key, next: map<Key, Schedule>, now: Instant,
                              finished: Option<Instant>, k: Key, line: nat -> Instant, claimed: nat, ended: nat)
    requires SelfKeyed(db) && Gapless(db, k, line, claimed, ended)
    requires SchedulesMove(rules, db, target, next, now, finished) && (finished.Some? ==> target != k)
    requires k in next ==> Planned(rules, next[k], line)
    ensures k in next && next[k].status.Active? ==> next[k].nextRunAt == Some(line(ended))
    ensures k in db.schedules ==> k in next
  {
    if k in next && k in db.schedules && next[k].status.Active? && target == k && db.schedules[k].status.Paused? {
      PlanIsKept(rules, db.schedules[k], next[k], line);
      ResumeAtFirstOpenSlot(rules, db, k, line, claimed, ended, now);
    }
  }

  /** A claim takes the first slot nobody has claimed, and only when all before it have ended. */
  lemma ClaimKeepsGapless(rules: Rules, db: DB, c: Change, next: DB, k: Key, line: nat -> Instant, claimed: nat,
                          ended: nat)
    requires SelfKeyed(db) && Allowed(rules, db, c) && FreshChange(db, c) && c.Claimed?
             && (c.e.tenantID, c.e.scheduleID) == k
    requires Gapless(db, k, line, claimed, ended) && k in db.schedules
    requires c.e.scheduledFor in FirstSlots(line, ended + 1)
    requires next.executions == ExecutionsAfter(db.executions, c) && next.schedules == db.schedules
    ensures claimed == ended && Gapless(next, k, line, claimed + 1, ended)
  {
    ClaimedAfter(rules, db, c, k, next);
    TerminalAfter(rules, db, c, k, next);
    OnlyTheNextSlot(line, c.e.scheduledFor, ended);
    FirstSlotsGrow(line, claimed);
  }

  /** Finishing the one execution in flight moves on to the next slot. */
  lemma FinishKeepsGapless(rules: Rules, db: DB, c: Change, next: DB, k: Key, line: nat -> Instant, claimed: nat,
                           ended: nat)
    requires SelfKeyed(db) && OnePerSlot(db.executions) && Allowed(rules, db, c) && c.Finished?
    requires (c.k.0, db.executions[c.k].scheduleID) == k
    requires Gapless(db, k, line, claimed, ended) && Planned(rules, db.schedules[k], line)
    requires next.executions == ExecutionsAfter(db.executions, c) && k in next.schedules
    requires ScheduleAdvanced(rules, db.schedules[k], next.schedules[k], db.executions[c.k].scheduledFor)
    ensures claimed == ended + 1 && Gapless(next, k, line, claimed, ended + 1)
  {
    ClaimedAfter(rules, db, c, k, next);
    TerminalAfter(rules, db, c, k, next);
    OpenSlotNotEnded(db, c.k, k);
    OnlyTheNextSlot(line, db.executions[c.k].scheduledFor, ended);
    FirstSlotsGrow(line, ended);
    var s := db.schedules[k];
    assert rules.after(s.recurrence, UTC, s.firstRunAt, line(ended)) == Ok(line(ended + 1));
  }

  ghost predicate ClaimsFor(command: Command, k: Key) {
    command.ClaimExecution? && (command.claim.tenantID, command.claim.scheduleID) == k
  }

  /** Any other entry leaves both slot sets alone. */
  lemma QuietStepKeepsGapless(rules: Rules, db: DB, c: Change, target: Key, next: DB, now: Instant,
                              finished: Option<Instant>, k: Key, line: nat -> Instant, claimed: nat, ended: nat)
    requires SelfKeyed(db) && Allowed(rules, db, c) && FreshChange(db, c)
    requires c.Claimed? ==> (c.e.tenantID, c.e.scheduleID) != k
    requires c.Finished? ==> (c.k.0, db.executions[c.k].scheduleID) != k
    requires next.executions == ExecutionsAfter(db.executions, c)
    requires SchedulesMove(rules, db, target, next.schedules, now, finished) && (finished.Some? ==> target != k)
    requires Gapless(db, k, line, claimed, ended)
    requires k in next.schedules ==> Planned(rules, next.schedules[k], line)
    ensures Gapless(next, k, line, claimed, ended)
  {
    ClaimedAfter(rules, db, c, k, next);
    TerminalAfter(rules, db, c, k, next);
    QuietMoveKeepsNextRun(rules, db, target, next.schedules, now, finished, k, line, claimed, ended);
  }

  lemma ClaimEntry(rules: Rules, db: DB, entry: LogEntry)
    requires SelfKeyed(db) && ChangeOf(rules, db, entry).Claimed?
    ensures entry.command.ClaimExecution? && After(rules, db, entry).schedules == db.schedules
    ensures var e, cmd := ChangeOf(rules, db, entry).e, entry.command.claim;
            e.tenantID == cmd.tenantID && e.scheduleID == cmd.scheduleID && e.scheduledFor == cmd.scheduledFor
  {
    OtherCommandsKeepSchedules(rules, db, entry);
  }

  /** One entry, the claim being for a slot no later than the first one not ended. */
  lemma StepKeepsGapless(rules: Rules, db: DB, entry: LogEntry, k: Key, line: nat -> Instant, claimed: nat, ended: nat)
    returns (claimed': nat, ended': nat)
    requires Consistent(rules, db) && Fresh(db, entry.command) && Gapless(db, k, line, claimed, ended)
    requires ClaimsFor(entry.command, k) ==>
               k in db.schedules && entry.command.claim.scheduledFor in FirstSlots(line, ended + 1)
    requires var next := After(rules, db, entry).schedules; k in next ==> Planned(rules, next[k], line)
    ensures ended <= ended' && Gapless(After(rules, db, entry), k, line, claimed', ended')
  {
    var c, next := ChangeOf(rules, db, entry), After(rules, db, entry);
    StepIsChange(rules, db, entry);
    FreshIsFreshChange(rules, db, entry);
    StepMovesSchedules(rules, db, entry);
    FinishTargetsItsSchedule(rules, db, entry);
    if c.Claimed? && (c.e.tenantID, c.e.scheduleID) == k {
      ClaimEntry(rules, db, entry);
      ClaimKeepsGapless(rules, db, c, next, k, line, claimed, ended);
      claimed', ended' := claimed + 1, ended;
    } else if c.Finished? && (c.k.0, db.executions[c.k].scheduleID) == k {
      MoveKeepsClosed(rules, db, k, next.schedules, entry.proposedAt, FinishedSlot(rules, db, entry), k);
      PlanIsKept(rules, db.schedules[k], next.schedules[k], line);
      FinishKeepsGapless(rules, db, c, next, k, line, claimed, ended);
      claimed', ended' := claimed, ended + 1;
    } else {
      QuietStepKeepsGapless(rules, db, c, TargetSchedule(db, entry), next, entry.proposedAt,
                            FinishedSlot(rules, db, entry), k, line, claimed, ended);
      claimed', ended' := claimed, ended;
    }
  }

  // ------------------------------------------------------------------ every log

  ghost function NextRunOf(db: DB, k: Key): Option<Instant> {
    if k in db.schedules then db.schedules[k].nextRunAt else None
  }

  /** The state after the first `i` entries. */
  ghost function StateAt(rules: Rules, log: seq<LogEntry>, i: nat): DB
    requires i <= |log|
  {
    Run(rules, EMPTY_DB, log[..i])
  }

  /** Claims for `k` use a next-run time some reader saw in this or an earlier state. */
  ghost predicate ClaimsFromReads(rules: Rules, log: seq<LogEntry>, k: Key) {
    forall i :: 0 <= i < |log| && ClaimsFor(log[i].command, k) ==>
      exists j: nat :: j <= i && NextRunOf(StateAt(rules, log, j), k) == Some(log[i].command.claim.scheduledFor)
  }

  lemma ClaimsFromReadsPrefix(rules: Rules, log: seq<LogEntry>, k: Key)
    requires log != [] && ClaimsFromReads(rules, log, k)
    ensures ClaimsFromReads(rules, log[..|log| - 1], k)
  {
    var before := log[..|log| - 1];
    forall i | 0 <= i < |before| && ClaimsFor(before[i].command, k)
      ensures exists j: nat :: j <= i && NextRunOf(StateAt(rules, before, j), k)
                               == Some(before[i].command.claim.scheduledFor)
    {
      assert before[i] == log[i];
      var j: nat :| j <= i && NextRunOf(StateAt(rules, log, j), k) == Some(log[i].command.claim.scheduledFor);
      assert before[..j] == log[..j];
      assert NextRunOf(StateAt(rules, before, j), k) == Some(before[i].command.claim.scheduledFor);
    }
  }

  /** Every next-run time that could have been read so far is one of the first slots. */
  ghost predicate ReadsWithin(rules: Rules, log: seq<LogEntry>, k: Key, line: nat -> Instant, n: nat) {
    forall j: nat :: j <= |log| && NextRunOf(StateAt(rules, log, j), k).Some? ==>
      NextRunOf(StateAt(rules, log, j), k).value in FirstSlots(line, n) && k in Run(rules, EMPTY_DB, log).schedules
  }

  lemma ReadsGrow(rules: Rules, log: seq<LogEntry>, k: Key, line: nat -> Instant, ended: nat, claimed': nat,
                  ended': nat)
    requires log != [] && ReadsWithin(rules, log[..|log| - 1], k, line, ended + 1)
    requires ended <= ended' && Gapless(Run(rules, EMPTY_DB, log), k, line, claimed', ended')
    requires Consistent(rules, Run(rules, EMPTY_DB, log))
    requires k in Run(rules, EMPTY_DB, log[..|log| - 1]).schedules ==> k in Run(rules, EMPTY_DB, log).schedules
    ensures ReadsWithin(rules, log, k, line, ended' + 1)
  {
    var before := log[..|log| - 1];
    forall j: nat | j <= |log| && NextRunOf(StateAt(rules, log, j), k).Some?
      ensures NextRunOf(StateAt(rules, log, j), k).value in FirstSlots(line, ended' + 1)
      ensures k in Run(rules, EMPTY_DB, log).schedules
    {
      if j == |log| {
        assert log[..j] == log;
        assert line(ended') in FirstSlots(line, ended' + 1);
      } else {
        assert before[..j] == log[..j];
        assert NextRunOf(StateAt(rules, before, j), k).value in FirstSlots(line, ended + 1);
      }
    }
  }

  lemma NothingYet(rules: Rules, k: Key, line: nat -> Instant)
    ensures Gapless(Run(rules, EMPTY_DB, []), k, line, 0, 0) && ReadsWithin(rules, [], k, line, 1)
  {
    assert ClaimedSlots(EMPTY_DB, k) == {} && TerminalSlots(EMPTY_DB, k) == {} && FirstSlots(line, 0) == {};
  }

  /** One more entry of the log. */
  lemma EntryIsGapless(rules: Rules, log: seq<LogEntry>, k: Key, line: nat -> Instant, claimed0: nat, ended0: nat)
    returns (claimed: nat, ended: nat)
    requires log != [] && FreshLog(rules, EMPTY_DB, log) && ClaimsFromReads(rules, log, k)
    requires var after := Run(rules, EMPTY_DB, log).schedules; k in after ==> Planned(rules, after[k], line)
    requires Gapless(Run(rules, EMPTY_DB, log[..|log| - 1]), k, line, claimed0, ended0)
    requires ReadsWithin(rules, log[..|log| - 1], k, line, ended0 + 1)
    ensures ended0 <= ended && Gapless(Run(rules, EMPTY_DB, log), k, line, claimed, ended)
  {
    var before, entry := log[..|log| - 1], log[|log| - 1];
    LogKeepsConsistent(rules, EMPTY_DB, before);
    if ClaimsFor(entry.command, k) {
      ClaimWithinReads(rules, log, k, line, ended0);
    }
    claimed, ended := StepKeepsGapless(rules, Run(rules, EMPTY_DB, before), entry, k, line, claimed0, ended0);
  }

  lemma EntryIsWithinReads(rules: Rules, log: seq<LogEntry>, k: Key, line: nat -> Instant, ended0: nat, claimed: nat,
                           ended: nat)
    requires log != [] && ReadsWithin(rules, log[..|log| - 1], k, line, ended0 + 1)
    requires ended0 <= ended && Gapless(Run(rules, EMPTY_DB, log), k, line, claimed, ended)
    requires k in Run(rules, EMPTY_DB, log[..|log| - 1]).schedules ==> k in Run(rules, EMPTY_DB, log).schedules
    ensures ReadsWithin(rules, log, k, line, ended + 1)
  {
    LogKeepsConsistent(rules, EMPTY_DB, log);
    ReadsGrow(rules, log, k, line, ended0, claimed, ended);
  }

  /** The plan of the schedule was already there before the last entry. */
  lemma PlanBefore(rules: Rules, log: seq<LogEntry>, k: Key, line: nat -> Instant)
    requires log != []
    requires var after := Run(rules, EMPTY_DB, log).schedules; k in after ==> Planned(rules, after[k], line)
    ensures var before := Run(rules, EMPTY_DB, log[..|log| - 1]).schedules;
            k in before ==> k in Run(rules, EMPTY_DB, log).schedules && Planned(rules, before[k], line)
  {
    var before, entry := log[..|log| - 1], log[|log| - 1];
    EveryLogIsSound(rules, before);
    EntryKeepsPlan(rules, Run(rules, EMPTY_DB, before), entry, k, line);
  }

  /** Over every log with fresh IDs whose claims come from reads, at every point: the claimed
      slots are exactly the first ones, all but possibly the last of them have ended, and an
      active schedule's next run is the slot numbered by how many have ended. */
  lemma {:induction false} ProgressIsGapless(rules: Rules, log: seq<LogEntry>, k: Key, line: nat -> Instant)
    returns (claimed: nat, ended: nat)
    requires FreshLog(rules, EMPTY_DB, log) && ClaimsFromReads(rules, log, k)
    requires var after := Run(rules, EMPTY_DB, log).schedules; k in after ==> Planned(rules, after[k], line)
    ensures Gapless(Run(rules, EMPTY_DB, log), k, line, claimed, ended)
    ensures ReadsWithin(rules, log, k, line, ended + 1)
  {
    if log == [] {
      claimed, ended := 0, 0;
      NothingYet(rules, k, line);
    } else {
      ClaimsFromReadsPrefix(rules, log, k);
      PlanBefore(rules, log, k, line);
      var claimed0, ended0 := ProgressIsGapless(rules, log[..|log| - 1], k, line);
      claimed, ended := EntryIsGapless(rules, log, k, line, claimed0, ended0);
      EntryIsWithinReads(rules, log, k, line, ended0, claimed, ended);
    }
  }

  lemma EntryKeepsPlan(rules: Rules, db: DB, entry: LogEntry, k: Key, line: nat -> Instant)
    requires SelfKeyed(db)
    requires var next := After(rules, db, entry).schedules; k in next ==> Planned(rules, next[k], line)
    ensures k in db.schedules ==> k in After(rules, db, entry).schedules && Planned(rules, db.schedules[k], line)
  {
    if k in db.schedules {
      var next := After(rules, db, entry).schedules;
      StepMovesSchedules(rules, db, entry);
      MoveKeepsClosed(rules, db, TargetSchedule(db, entry), next, entry.proposedAt, FinishedSlot(rules, db, entry), k);
      PlanIsKept(rules, db.schedules[k], next[k], line);
    }
  }

  lemma ClaimWithinReads(rules: Rules, log: seq<LogEntry>, k: Key, line: nat -> Instant, ended: nat)
    requires log != [] && ClaimsFromReads(rules, log, k) && ClaimsFor(log[|log| - 1].command, k)
    requires ReadsWithin(rules, log[..|log| - 1], k, line, ended + 1)
    ensures k in Run(rules, EMPTY_DB, log[..|log| - 1]).schedules
    ensures log[|log| - 1].command.claim.scheduledFor in FirstSlots(line, ended + 1)
  {
    var before := log[..|log| - 1];
    var j: nat :| j <= |log| - 1
                  && NextRunOf(StateAt(rules, log, j), k) == Some(log[|log| - 1].command.claim.scheduledFor);
    assert before[..j] == log[..j];
    assert NextRunOf(StateAt(rules, before, j), k).Some?;
  }
}
