/**
 The command handlers (`internal/command`) as they run inside one transaction, and the state
 machine's Apply (`internal/statemachine`) around them: read rows, check, write rows; keep
 the writes if the command is accepted, roll all of them back if it is not.
 */
module Commands {
  import opened Base
  import opened Calendar
  import opened Recurrence
  import opened Domain
  import Fsm
  import opened Indexes
  import opened Pages
  import opened Buckets
  import opened Storage
  import opened BoltTx
  import opened SchedulerRules

  type Command = Fsm.Command
  type Reply = Fsm.Reply

  /** The command's IDs keep composite keys unambiguous, and it does not move an existing
      execution to another schedule or an existing attempt to another execution. */
  ghost predicate Admissible(db: DB, command: Command) {
    match command
    case CreateTenant(_) => true
    case CreateSchedule(cmd) => ColonFree(cmd.tenantID)
    case UpdateSchedule(cmd) => ColonFree(cmd.tenantID)
    case PauseSchedule(t, _) => ColonFree(t)
    case CancelSchedule(t, _) => ColonFree(t)
    case ResumeSchedule(t, _) => ColonFree(t)
    case ClaimExecution(cmd) =>
      && ColonFree(cmd.tenantID) && ColonFree(cmd.id)
      && ((cmd.tenantID, cmd.id) in db.executions ==>
          db.executions[(cmd.tenantID, cmd.id)].scheduleID == cmd.scheduleID)
    case AdoptExecution(cmd) => ColonFree(cmd.tenantID)
    case RecordAttempt(cmd) =>
      && ColonFree(cmd.tenantID) && ColonFree(cmd.executionID)
      && ((cmd.tenantID, cmd.id) in db.attempts ==> db.attempts[(cmd.tenantID, cmd.id)].executionID == cmd.executionID)
    case CompleteExecution(cmd) => ColonFree(cmd.tenantID)
    case FailExecutionTimeout(cmd) => ColonFree(cmd.tenantID)
  }

  /** A handler's reply, its tables and its indexes are what the specification says; what a
      rejected handler has already written is the transaction's business. */
  ghost predicate Implements(spec: Fsm.Applied, r: Result<Reply>, db: DB, faithful: bool) {
    match spec
    case Accepted(next, reply) => r == Ok(reply) && db == next && faithful
    case Rejected(error) => r == Err(error)
  }

  function Fail(kind: ErrorKind, field: Field): Result<Reply> { Err(CommandError(kind, field)) }

  lemma StoredExecution(b: Image, db: DB, p: Key)
    requires Represents(b, db) && p in db.executions
    ensures ColonFree(p.0) && ColonFree(p.1) && (db.executions[p].tenantID, db.executions[p].id) == p
  {
  }

  lemma StoredSchedule(b: Image, db: DB, p: Key)
    requires Represents(b, db) && p in db.schedules
    ensures (db.schedules[p].tenantID, db.schedules[p].id) == p
  {
  }

  // ------------------------------------------------------------------ tenants and schedules

  method ApplyCreateTenant(tx: Tx, cmd: Fsm.CreateTenantCommand, now: Instant) returns (r: Result<Reply>)
    requires Ordered(tx.buckets)
    modifies tx
    ensures Ordered(tx.buckets)
    ensures old(tx.Faithful()) ==> Implements(Fsm.ApplyCreateTenant(old(tx.db), cmd, now), r, tx.db, tx.Faithful())
  {
    if cmd.id == "" { return Fail(Validation, IdField); }
    if cmd.apiKeyHash == "" { return Fail(Validation, ApiKeyHashField); }
    var existing := tx.GetTenant(cmd.id);
    if existing.Some? { return Fail(Conflict, IdField); }
    var tenant := Tenant(cmd.id, cmd.name, now, cmd.apiKeyHash);
    tx.PutTenant(tenant);
    r := Ok(Fsm.TenantReply(tenant));
  }

  method ApplyCreateSchedule(tx: Tx, cmd: Fsm.CreateScheduleCommand, now: Instant) returns (r: Result<Reply>)
    requires Ordered(tx.buckets)
    modifies tx
    ensures Ordered(tx.buckets)
    ensures old(tx.Faithful()) && ColonFree(cmd.tenantID) ==>
      Implements(Fsm.ApplyCreateSchedule(RULES, old(tx.db), cmd, now), r, tx.db, tx.Faithful())
  {
    if cmd.tenantID == "" { return Fail(Validation, TenantIdField); }
    if cmd.id == "" { return Fail(Validation, IdField); }
    if !HeadersAllowed(cmd.headers) { return Fail(Validation, HeadersField); }
    var existing := tx.GetSchedule(cmd.tenantID, cmd.id);
    if existing.Some? { return Fail(Conflict, IdField); }
    var nextRun: Instant;
    if cmd.scheduleType.Once? {
      nextRun := cmd.firstRunAt;
    } else {
      var computed := ComputeNextRunOnOrAfter(cmd.recurrence, cmd.timezone, cmd.firstRunAt, cmd.firstRunAt);
      if computed.Err? { return Err(computed.error); }
      nextRun := computed.value;
    }
    if cmd.callTimeout.Some? && !Fsm.CallTimeoutInRange(cmd.callTimeout.value) {
      return Fail(Validation, CallTimeoutField);
    }
    var schedule := Fsm.NewSchedule(cmd, nextRun, now);
    tx.PutSchedule(schedule);
    r := Ok(Fsm.ScheduleReply(schedule));
  }

  /** The fields an update may change; a call timeout out of range rejects the whole update. */
  method PatchFields(existing: Schedule, cmd: Fsm.UpdateScheduleCommand, now: Instant) returns (r: Result<Schedule>)
    ensures var timeout := cmd.callTimeout;
            r == if timeout.Some? && timeout.value != 0 && !Fsm.CallTimeoutInRange(timeout.value)
                 then Err(CommandError(Validation, CallTimeoutField))
                 else Ok(Fsm.UpdatedSchedule(existing, cmd, now))
  {
    var updated := existing;
    if cmd.callbackURL.Some? { updated := updated.(callbackURL := cmd.callbackURL.value); }
    if cmd.headers.Some? { updated := updated.(headers := cmd.headers.value); }
    if cmd.payload.Some? { updated := updated.(payload := cmd.payload.value); }
    if cmd.retryBackoff.Some? { updated := updated.(retryBackoff := cmd.retryBackoff.value); }
    if cmd.maxAttempts.Some? { updated := updated.(maxAttempts := cmd.maxAttempts.value); }
    if cmd.callTimeout.Some? {
      if cmd.callTimeout.value == 0 {
        updated := updated.(callTimeout := None);
      } else if !Fsm.CallTimeoutInRange(cmd.callTimeout.value) {
        return Err(CommandError(Validation, CallTimeoutField));
      } else {
        updated := updated.(callTimeout := cmd.callTimeout);
      }
    }
    r := Ok(updated.(updatedAt := now));
  }

  method ApplyUpdateSchedule(tx: Tx, cmd: Fsm.UpdateScheduleCommand, now: Instant) returns (r: Result<Reply>)
    requires Ordered(tx.buckets)
    modifies tx
    ensures Ordered(tx.buckets)
    ensures old(tx.Faithful()) && ColonFree(cmd.tenantID) ==>
      Implements(Fsm.ApplyUpdateSchedule(RULES, old(tx.db), cmd, now), r, tx.db, tx.Faithful())
  {
    if cmd.tenantID == "" { return Fail(Validation, TenantIdField); }
    if cmd.id == "" { return Fail(Validation, IdField); }
    if cmd.headers.Some? && !HeadersAllowed(cmd.headers.value) { return Fail(Validation, HeadersField); }
    var existing := tx.GetSchedule(cmd.tenantID, cmd.id);
    if existing.None? { return Fail(NotFound, IdField); }
    if existing.value.status.Canceled? { return Fail(Conflict, StatusField); }
    var patched := PatchFields(existing.value, cmd, now);
    if patched.Err? { return Err(patched.error); }
    var updated := patched.value;
    if tx.Faithful() && ColonFree(cmd.tenantID) { StoredSchedule(tx.buckets, tx.db, (cmd.tenantID, cmd.id)); }
    tx.PutSchedule(updated);
    r := Ok(Fsm.ScheduleReply(updated));
  }

  method ApplyPauseSchedule(tx: Tx, t: string, id: string, now: Instant) returns (r: Result<Reply>)
    requires Ordered(tx.buckets)
    modifies tx
    ensures Ordered(tx.buckets)
    ensures old(tx.Faithful()) && ColonFree(t) ==>
      Implements(Fsm.ApplyPauseSchedule(old(tx.db), t, id, now), r, tx.db, tx.Faithful())
  {
    if t == "" { return Fail(Validation, TenantIdField); }
    if id == "" { return Fail(Validation, IdField); }
    var existing := tx.GetSchedule(t, id);
    if existing.None? { return Fail(NotFound, IdField); }
    if existing.value.status.Paused? { return Ok(Fsm.ScheduleReply(existing.value)); }
    if existing.value.status.Canceled? { return Fail(Conflict, StatusField); }
    if existing.value.status.Completed? { return Fail(Conflict, StatusField); }
    var updated := existing.value.(status := Paused, nextRunAt := None, updatedAt := now);
    if tx.Faithful() && ColonFree(t) { StoredSchedule(tx.buckets, tx.db, (t, id)); }
    tx.PutSchedule(updated);
    r := Ok(Fsm.ScheduleReply(updated));
  }

  method ApplyCancelSchedule(tx: Tx, t: string, id: string, now: Instant) returns (r: Result<Reply>)
    requires Ordered(tx.buckets)
    modifies tx
    ensures Ordered(tx.buckets)
    ensures old(tx.Faithful()) && ColonFree(t) ==>
      Implements(Fsm.ApplyCancelSchedule(old(tx.db), t, id, now), r, tx.db, tx.Faithful())
  {
    if t == "" { return Fail(Validation, TenantIdField); }
    if id == "" { return Fail(Validation, IdField); }
    var existing := tx.GetSchedule(t, id);
    if existing.None? { return Fail(NotFound, IdField); }
    if existing.value.status.Canceled? { return Ok(Fsm.ScheduleReply(existing.value)); }
    if existing.value.status.Completed? { return Ok(Fsm.ScheduleReply(existing.value)); }
    var updated := existing.value.(status := Canceled, nextRunAt := None, updatedAt := now);
    if tx.Faithful() && ColonFree(t) { StoredSchedule(tx.buckets, tx.db, (t, id)); }
    tx.PutSchedule(updated);
    r := Ok(Fsm.ScheduleReply(updated));
  }

  // ------------------------------------------------------------------ scans over a schedule's executions

  ghost function SlotsOf(list: seq<Execution>): set<Instant> {
    set i | 0 <= i < |list| :: list[i].scheduledFor
  }

  ghost function TerminalSlotsOf(list: seq<Execution>): set<Instant> {
    set i | 0 <= i < |list| && IsTerminal(list[i].status) :: list[i].scheduledFor
  }

  lemma ListedSlots(db: DB, t: string, scheduleID: string)
    ensures SlotsOf(ListBySchedule(db, t, scheduleID)) == Fsm.ClaimedSlots(db, (t, scheduleID))
    ensures TerminalSlotsOf(ListBySchedule(db, t, scheduleID)) == Fsm.TerminalSlots(db, (t, scheduleID))
  {
    var list, ids := ListBySchedule(db, t, scheduleID), InOrder(IdsBySchedule(db, t, scheduleID));
    forall i | 0 <= i < |list|
      ensures (t, ids[i]) in db.executions && list[i] == db.executions[(t, ids[i])] && list[i].scheduleID == scheduleID
    {
      assert ids[i] in ids;
    }
    forall k | k in db.executions && (k.0, db.executions[k].scheduleID) == (t, scheduleID)
      ensures exists i :: 0 <= i < |list| && list[i] == db.executions[k]
    {
      assert k.1 in IdsBySchedule(db, t, scheduleID);
      var i :| 0 <= i < |ids| && ids[i] == k.1;
      assert list[i] == db.executions[k];
    }
  }

  predicate Present(bucket: map<string, Execution>, t: string, id: string) { RowKey((t, id)) in bucket }

  /** The row under an ID of the scan is there, and is for this instant. */
  predicate IsFor(bucket: map<string, Execution>, t: string, id: string, at: Instant) {
    Present(bucket, t, id) && bucket[RowKey((t, id))].scheduledFor == at
  }

  /** The scan in ApplyClaimExecution, in order of IDs: it stops at the first execution for this
      instant, and fails at the first entry without a row. */
  method FindCollision(bucket: map<string, Execution>, t: string, ids: seq<string>, at: Instant)
      returns (r: Result<bool>)
    ensures r.Ok? && r.value ==> exists n :: 0 <= n < |ids| && IsFor(bucket, t, ids[n], at)
                                             && forall j :: 0 <= j < n ==> Present(bucket, t, ids[j])
    ensures r.Err? ==>
      && r == Err(CommandError(StorageFailure, NoField))
      && exists n :: 0 <= n < |ids| && !Present(bucket, t, ids[n])
                     && forall j :: 0 <= j < n ==> !IsFor(bucket, t, ids[j], at)
    ensures r.Ok? && !r.value ==>
              forall j :: 0 <= j < |ids| ==> Present(bucket, t, ids[j]) && !IsFor(bucket, t, ids[j], at)
  {
    var i := 0;
    while i < |ids|
      invariant 0 <= i <= |ids|
      invariant forall j :: 0 <= j < i ==> Present(bucket, t, ids[j]) && !IsFor(bucket, t, ids[j], at)
    {
      if RowKey((t, ids[i])) !in bucket {
        return Err(CommandError(StorageFailure, NoField));
      }
      if bucket[RowKey((t, ids[i]))].scheduledFor == at {
        return Ok(true);
      }
      i := i + 1;
    }
    r := Ok(false);
  }

  /** The scan in findMostRecentTerminalExecution. */
  method FindMostRecentTerminal(list: seq<Execution>) returns (anchor: Option<Instant>)
    ensures Fsm.IsMostRecent(TerminalSlotsOf(list), anchor)
  {
    var mostRecent: Option<Execution> := None;
    var i := 0;
    while i < |list|
      invariant 0 <= i <= |list|
      invariant mostRecent.None? ==> forall j :: 0 <= j < i ==> !IsTerminal(list[j].status)
      invariant mostRecent.Some? ==>
        && mostRecent.value in list[..i] && IsTerminal(mostRecent.value.status)
        && forall j :: 0 <= j < i && IsTerminal(list[j].status) ==>
                         list[j].scheduledFor <= mostRecent.value.scheduledFor
    {
      if IsTerminal(list[i].status) && (mostRecent.None? || list[i].scheduledFor > mostRecent.value.scheduledFor) {
        mostRecent := Some(list[i]);
      }
      i := i + 1;
    }
    anchor := if mostRecent.None? then None else Some(mostRecent.value.scheduledFor);
    if mostRecent.Some? {
      var j :| 0 <= j < |list| && list[j] == mostRecent.value;
    }
  }

  lemma MostRecentUnique(slots: set<Instant>, a: Option<Instant>, b: Option<Instant>)
    requires Fsm.IsMostRecent(slots, a) && Fsm.IsMostRecent(slots, b)
    ensures a == b
  {
  }

  method FindMostRecentTerminalExecution(tx: Tx, t: string, scheduleID: string) returns (r: Result<Option<Instant>>)
    requires Ordered(tx.buckets)
    ensures tx.Faithful() && ColonFree(t) ==>
      r == if Fsm.Shadowed(tx.db, (t, scheduleID)) then Err(CommandError(StorageFailure, NoField))
           else Ok(Fsm.MostRecentTerminal(tx.db, (t, scheduleID)))
  {
    var list := tx.ListExecutionsBySchedule(t, scheduleID);
    if list.Err? {
      return Err(list.error);
    }
    var anchor := FindMostRecentTerminal(list.value);
    r := Ok(anchor);
    if tx.Faithful() && ColonFree(t) {
      ListedSlots(tx.db, t, scheduleID);
      MostRecentUnique(Fsm.TerminalSlots(tx.db, (t, scheduleID)), anchor,
                       Fsm.MostRecentTerminal(tx.db, (t, scheduleID)));
    }
  }

  // ------------------------------------------------------------------ resume

  /** The switch on the catch-up policy; the scan for the anchor runs whatever the policy. */
  method NextRunOnResume(tx: Tx, s: Schedule, now: Instant) returns (r: Result<Option<Instant>>)
    requires Ordered(tx.buckets)
    ensures tx.Faithful() && ColonFree(s.tenantID) ==> r == Fsm.ResumePoint(RULES, tx.db, s, now)
  {
    if s.scheduleType.Once? { return Ok(Some(s.firstRunAt)); }
    var anchor := FindMostRecentTerminalExecution(tx, s.tenantID, s.id);
    if anchor.Err? { return Err(anchor.error); }
    match s.catchUpPolicy
    case CatchUpAll =>
      var next: Result<Instant>;
      if anchor.value.None? {
        next := ComputeNextRunOnOrAfter(s.recurrence, s.timezone, s.firstRunAt, s.firstRunAt);
      } else {
        next := ComputeNextRunAfter(s.recurrence, s.timezone, s.firstRunAt, anchor.value.value);
      }
      r := if next.Err? then Err(next.error) else Ok(Some(next.value));
    case CatchUpLatestOnly =>
      var next := ComputeLatestRunOnOrBefore(s.recurrence, s.timezone, s.firstRunAt, now);
      r := if next.Err? then Err(next.error) else Ok(Some(if next.value.None? then s.firstRunAt else next.value.value));
    case SkipMissed =>
      var next := ComputeNextRunAfter(s.recurrence, s.timezone, s.firstRunAt, now);
      r := if next.Err? then Err(next.error) else Ok(Some(next.value));
    case OtherPolicy =>
      r := Ok(None);
  }

  method ApplyResumeSchedule(tx: Tx, t: string, id: string, now: Instant) returns (r: Result<Reply>)
    requires Ordered(tx.buckets)
    modifies tx
    ensures Ordered(tx.buckets)
    ensures old(tx.Faithful()) && ColonFree(t) ==>
      Implements(Fsm.ApplyResumeSchedule(RULES, old(tx.db), t, id, now), r, tx.db, tx.Faithful())
  {
    if t == "" { return Fail(Validation, TenantIdField); }
    if id == "" { return Fail(Validation, IdField); }
    var existing := tx.GetSchedule(t, id);
    if existing.None? { return Fail(NotFound, IdField); }
    if existing.value.status.Active? { return Ok(Fsm.ScheduleReply(existing.value)); }
    if existing.value.status.Canceled? { return Fail(Conflict, StatusField); }
    if existing.value.status.Completed? { return Fail(Conflict, StatusField); }
    if tx.Faithful() && ColonFree(t) { StoredSchedule(tx.buckets, tx.db, (t, id)); }
    var nextRun := NextRunOnResume(tx, existing.value, now);
    if nextRun.Err? { return Err(nextRun.error); }
    var updated := existing.value.(nextRunAt := nextRun.value, status := Active, updatedAt := now);
    tx.PutSchedule(updated);
    r := Ok(Fsm.ScheduleReply(updated));
  }

  // ------------------------------------------------------------------ executions

  /** What the scan for a claimed slot comes to. */
  ghost function ClaimScan(db: DB, schedule: Key, at: Instant): Result<bool> {
    if Fsm.CollisionFirst(db, schedule, at) then Ok(true)
    else if Fsm.Shadowed(db, schedule) then Err(CommandError(StorageFailure, NoField))
    else Ok(false)
  }

  /** A hit with a row is an execution of the schedule; a hit without one is a shadow's. */
  lemma HitIsOwnOrDangling(db: DB, schedule: Key, x: string)
    requires OwnIds(db.executions) && x in Hits(db, schedule.0, schedule.1)
    ensures (schedule.0, x) in db.executions ==> db.executions[(schedule.0, x)].scheduleID == schedule.1
    ensures (schedule.0, x) !in db.executions ==>
      exists q :: q in db.executions && Fsm.Shadows(schedule, db.executions[q])
                  && Fsm.DanglingID(schedule, db.executions[q]) == x
  {
    var (t, f) := schedule;
    var p :| p in db.executions && p.0 == t && Meets(f, db.executions[p].scheduleID, p.1)
             && HitOf(f, db.executions[p].scheduleID, p.1) == x;
    HitsSplit(db, t, f, p);
  }

  lemma OwnAndDanglingAreHits(db: DB, schedule: Key, p: Key)
    requires OwnIds(db.executions) && p in db.executions && p.0 == schedule.0
    ensures db.executions[p].scheduleID == schedule.1 ==> p.1 in Hits(db, schedule.0, schedule.1)
    ensures Fsm.Shadows(schedule, db.executions[p]) ==>
      var x := Fsm.DanglingID(schedule, db.executions[p]);
      x in Hits(db, schedule.0, schedule.1) && (schedule.0, x) !in db.executions
  {
    HitsSplit(db, schedule.0, schedule.1, p);
  }

  /** The first of the hits, by ID, that is for the instant, with every hit before it present. */
  lemma CollisionComesFirst(db: DB, schedule: Key, at: Instant, ids: seq<string>, n: nat)
    requires OwnIds(db.executions) && ids == InOrder(Hits(db, schedule.0, schedule.1)) && n < |ids|
    requires (schedule.0, ids[n]) in db.executions && db.executions[(schedule.0, ids[n])].scheduledFor == at
    requires forall j :: 0 <= j < n ==> (schedule.0, ids[j]) in db.executions
    ensures Fsm.CollisionFirst(db, schedule, at)
  {
    var p := (schedule.0, ids[n]);
    assert ids[n] in ids;
    HitIsOwnOrDangling(db, schedule, ids[n]);
    forall q | q in db.executions && Fsm.Shadows(schedule, db.executions[q])
      ensures Less(p.1, Fsm.DanglingID(schedule, db.executions[q]))
    {
      var x := Fsm.DanglingID(schedule, db.executions[q]);
      OwnAndDanglingAreHits(db, schedule, q);
      assert x in ids;
      var m :| 0 <= m < |ids| && ids[m] == x;
      SortedAt(ids, n, m);
    }
    assert Fsm.CollidesFirst(db, schedule, at, p);
  }

  /** A hit without a row, with none before it for the instant: the scan fails there. */
  lemma DanglingComesFirst(db: DB, schedule: Key, at: Instant, ids: seq<string>, n: nat)
    requires OwnIds(db.executions) && ids == InOrder(Hits(db, schedule.0, schedule.1)) && n < |ids|
    requires (schedule.0, ids[n]) !in db.executions
    requires forall j :: 0 <= j < n && (schedule.0, ids[j]) in db.executions ==>
                           db.executions[(schedule.0, ids[j])].scheduledFor != at
    ensures Fsm.Shadowed(db, schedule) && !Fsm.CollisionFirst(db, schedule, at)
  {
    assert ids[n] in ids;
    HitIsOwnOrDangling(db, schedule, ids[n]);
    var q :| q in db.executions && Fsm.Shadows(schedule, db.executions[q])
             && Fsm.DanglingID(schedule, db.executions[q]) == ids[n];
    forall p | p in db.executions
      ensures !Fsm.CollidesFirst(db, schedule, at, p)
    {
      if p.0 == schedule.0 && db.executions[p].scheduleID == schedule.1 && db.executions[p].scheduledFor == at {
        OwnAndDanglingAreHits(db, schedule, p);
        assert p.1 in ids;
        var m :| 0 <= m < |ids| && ids[m] == p.1;
        NotBefore(ids, n, m);
      }
    }
  }

  lemma NotBefore(ids: seq<string>, n: nat, m: nat)
    requires Sorted(ids) && n <= m < |ids|
    ensures !Less(ids[m], ids[n])
  {
    LessIrreflexive(ids[n]);
    if Less(ids[m], ids[n]) && n < m {
      LessTransitive(ids[m], ids[n], ids[m]);
      LessIrreflexive(ids[m]);
    }
  }

  lemma AllPresentNoneFor(db: DB, schedule: Key, at: Instant, ids: seq<string>)
    requires OwnIds(db.executions) && ids == InOrder(Hits(db, schedule.0, schedule.1))
    requires forall j :: 0 <= j < |ids| ==> (schedule.0, ids[j]) in db.executions
                                            && db.executions[(schedule.0, ids[j])].scheduledFor != at
    ensures !Fsm.Shadowed(db, schedule) && !Fsm.CollisionFirst(db, schedule, at)
  {
    forall x | x in Hits(db, schedule.0, schedule.1)
      ensures (schedule.0, x) in db.executions && db.executions[(schedule.0, x)].scheduledFor != at
    {
      assert x in ids;
      var j :| 0 <= j < |ids| && ids[j] == x;
    }
    forall p | p in db.executions && p.0 == schedule.0
      ensures !Fsm.Shadows(schedule, db.executions[p])
      ensures db.executions[p].scheduleID == schedule.1 ==> db.executions[p].scheduledFor != at
    {
      OwnAndDanglingAreHits(db, schedule, p);
    }
  }

  method SlotIsClaimed(tx: Tx, schedule: Key, at: Instant) returns (r: Result<bool>)
    requires Ordered(tx.buckets)
    ensures tx.Faithful() && ColonFree(schedule.0) ==> r == ClaimScan(tx.db, schedule, at)
  {
    var ids := Scan(tx.buckets.executionsBySchedule, ScanPrefix(schedule.0, schedule.1));
    r := FindCollision(tx.buckets.executions, schedule.0, ids, at);
    if tx.Faithful() && ColonFree(schedule.0) {
      ByScheduleFindsHits(tx.buckets, tx.db, schedule.0, schedule.1);
      ScanOutcome(tx.buckets.executions, tx.db, schedule, at, ids, r);
    }
  }

  /** The outcome of the scan, on the table. */
  lemma ScanOutcome(bucket: map<string, Execution>, db: DB, schedule: Key, at: Instant, ids: seq<string>,
                    r: Result<bool>)
    requires RowsAgree(bucket, db.executions) && OwnIds(db.executions) && ColonFree(schedule.0)
    requires ids == InOrder(Hits(db, schedule.0, schedule.1))
    requires r.Ok? && r.value ==> exists n :: 0 <= n < |ids| && IsFor(bucket, schedule.0, ids[n], at)
                                         && forall j :: 0 <= j < n ==> Present(bucket, schedule.0, ids[j])
    requires r.Err? ==>
      && r == Err(CommandError(StorageFailure, NoField))
      && exists n :: 0 <= n < |ids| && !Present(bucket, schedule.0, ids[n])
                     && forall j :: 0 <= j < n ==> !IsFor(bucket, schedule.0, ids[j], at)
    requires r.Ok? && !r.value ==>
               forall j :: 0 <= j < |ids| ==>
                 Present(bucket, schedule.0, ids[j]) && !IsFor(bucket, schedule.0, ids[j], at)
    ensures r == ClaimScan(db, schedule, at)
  {
    forall id
      ensures Present(bucket, schedule.0, id) <==> (schedule.0, id) in db.executions
      ensures (schedule.0, id) in db.executions ==> bucket[RowKey((schedule.0, id))] == db.executions[(schedule.0, id)]
    {
      LookupAgrees(bucket, db.executions, (schedule.0, id));
    }
    if r.Ok? && r.value {
      var n :| 0 <= n < |ids| && IsFor(bucket, schedule.0, ids[n], at)
               && forall j :: 0 <= j < n ==> Present(bucket, schedule.0, ids[j]);
      CollisionComesFirst(db, schedule, at, ids, n);
    } else if r.Err? {
      var n :| 0 <= n < |ids| && !Present(bucket, schedule.0, ids[n])
               && forall j :: 0 <= j < n ==> !IsFor(bucket, schedule.0, ids[j], at);
      DanglingComesFirst(db, schedule, at, ids, n);
    } else {
      AllPresentNoneFor(db, schedule, at, ids);
    }
  }

  /** Whatever the rules, of which a claim uses only the key derivation. */
  method ApplyClaimExecution(tx: Tx, rules: Fsm.Rules, cmd: Fsm.ClaimExecutionCommand, now: Instant)
      returns (r: Result<Reply>)
    requires Ordered(tx.buckets)
    modifies tx
    ensures Ordered(tx.buckets)
    ensures old(tx.Faithful()) && Admissible(old(tx.db), Fsm.ClaimExecution(cmd)) ==>
      Implements(Fsm.ApplyClaimExecution(rules, old(tx.db), cmd, now), r, tx.db, tx.Faithful())
  {
    if cmd.tenantID == "" { return Fail(Validation, TenantIdField); }
    if cmd.scheduleID == "" { return Fail(Validation, ScheduleIdField); }
    if cmd.id == "" { return Fail(Validation, IdField); }
    if cmd.scheduledFor == ZERO_TIME { return Fail(Validation, ScheduledForField); }
    if cmd.ownerNodeID == "" { return Fail(Validation, OwnerNodeIdField); }
    var collision := SlotIsClaimed(tx, (cmd.tenantID, cmd.scheduleID), cmd.scheduledFor);
    if collision.Err? { return Err(collision.error); }
    if collision.value { return Fail(Conflict, ScheduledForField); }
    var e := Fsm.NewExecution(rules, cmd, now);
    tx.PutExecution(e);
    r := Ok(Fsm.ExecutionReply(e));
  }

  method ApplyAdoptExecution(tx: Tx, cmd: Fsm.AdoptExecutionCommand) returns (r: Result<Reply>)
    requires Ordered(tx.buckets)
    modifies tx
    ensures Ordered(tx.buckets)
    ensures old(tx.Faithful()) && ColonFree(cmd.tenantID) ==>
      Implements(Fsm.ApplyAdoptExecution(old(tx.db), cmd), r, tx.db, tx.Faithful())
  {
    if cmd.tenantID == "" { return Fail(Validation, TenantIdField); }
    if cmd.executionID == "" { return Fail(Validation, ExecutionIdField); }
    if cmd.previousOwner == "" { return Fail(Validation, CurrentOwnerField); }
    if cmd.newOwner == "" { return Fail(Validation, NewOwnerField); }
    if cmd.newOwner == cmd.previousOwner { return Fail(Validation, NewOwnerField); }
    var exec := tx.GetExecution(cmd.tenantID, cmd.executionID);
    if exec.None? { return Fail(NotFound, NoField); }
    if !exec.value.status.InFlight? { return Fail(Conflict, StatusField); }
    if exec.value.ownerNodeID != cmd.previousOwner { return Fail(Conflict, OwnerNodeIdField); }
    if tx.Faithful() && ColonFree(cmd.tenantID) { StoredExecution(tx.buckets, tx.db, (cmd.tenantID, cmd.executionID)); }
    var updated := exec.value.(ownerNodeID := cmd.newOwner);
    tx.PutExecution(updated);
    r := Ok(Fsm.ExecutionReply(updated));
  }

  /** The guards of a recorded attempt: the execution is in flight and the caller owns it. */
  method CheckRecord(tx: Tx, cmd: Fsm.RecordAttemptCommand) returns (r: Result<Execution>)
    requires Ordered(tx.buckets)
    ensures tx.Faithful() && ColonFree(cmd.tenantID) ==>
      var k, spec := (cmd.tenantID, cmd.executionID), Fsm.ApplyRecordAttempt(tx.db, cmd);
      if spec.Rejected? then r == Err(spec.error)
      else r.Ok? && IsRow(tx.db, k, r.value) && spec == Fsm.Recording(tx.db, r.value, cmd)
  {
    var field := Fsm.RecordFieldError(cmd);
    if field.Some? { return Err(CommandError(Validation, field.value)); }
    var exec := tx.GetExecution(cmd.tenantID, cmd.executionID);
    if exec.None? { return Err(CommandError(NotFound, NoField)); }
    if !exec.value.status.InFlight? { return Err(CommandError(Conflict, StatusField)); }
    if exec.value.ownerNodeID != cmd.nodeID { return Err(CommandError(Conflict, OwnerNodeIdField)); }
    if tx.Faithful() && ColonFree(cmd.tenantID) { StoredExecution(tx.buckets, tx.db, (cmd.tenantID, cmd.executionID)); }
    r := Ok(exec.value);
  }

  /** The execution stored under `k`, with unambiguous index keys. */
  ghost predicate IsRow(db: DB, k: Key, e: Execution) {
    && k in db.executions && db.executions[k] == e && (e.tenantID, e.id) == k
    && ColonFree(e.tenantID) && ColonFree(e.id)
  }

  method WriteAttempt(tx: Tx, exec: Execution, attempt: Attempt, retryAt: Option<Instant>)
    requires Ordered(tx.buckets)
    modifies tx
    ensures Ordered(tx.buckets)
    ensures tx.db == Fsm.WithAttempt(old(tx.db), exec, attempt, retryAt)
    ensures old(tx.Faithful()) && IsRow(old(tx.db), ExecutionKeyOf(attempt), exec) && ColonFree(attempt.executionID)
            && KeepsExecution(old(tx.db), attempt)
            ==> tx.Faithful()
  {
    tx.PutAttempt(attempt);
    var updated := exec.(attemptCount := exec.attemptCount + 1, lastAttemptID := attempt.id, lastRetryAt := retryAt);
    tx.PutExecution(updated);
  }

  lemma AdmissibleRecord(db: DB, cmd: Fsm.RecordAttemptCommand, e: Execution)
    requires Admissible(db, Fsm.RecordAttempt(cmd))
    ensures var a := Fsm.NewAttempt(e, cmd);
            KeepsExecution(db, a) && ColonFree(a.executionID) && ExecutionKeyOf(a) == (cmd.tenantID, cmd.executionID)
  {
  }

  method ApplyRecordAttempt(tx: Tx, cmd: Fsm.RecordAttemptCommand) returns (r: Result<Reply>)
    requires Ordered(tx.buckets)
    modifies tx
    ensures Ordered(tx.buckets)
    ensures old(tx.Faithful()) && Admissible(old(tx.db), Fsm.RecordAttempt(cmd)) ==>
      Implements(Fsm.ApplyRecordAttempt(old(tx.db), cmd), r, tx.db, tx.Faithful())
  {
    var exec := CheckRecord(tx, cmd);
    if exec.Err? { return Err(exec.error); }
    var attempt := Fsm.NewAttempt(exec.value, cmd);
    if Admissible(tx.db, Fsm.RecordAttempt(cmd)) { AdmissibleRecord(tx.db, cmd, exec.value); }
    WriteAttempt(tx, exec.value, attempt, cmd.retryAt);
    r := Ok(Fsm.AttemptReply(attempt));
  }

  /** An attempt with this ID, if there is one, is already one of the same execution. */
  ghost predicate KeepsExecution(db: DB, a: Attempt) {
    (a.tenantID, a.id) in db.attempts ==> db.attempts[(a.tenantID, a.id)].executionID == a.executionID
  }

  /** A recurring schedule moves on from the finished slot while it is active; any other is
      completed. */
  method AdvanceSchedule(schedule: Schedule, scheduledFor: Instant) returns (r: Result<Schedule>)
    ensures r == Fsm.AdvancedSchedule(RULES, schedule, scheduledFor)
    ensures r.Ok? ==> (r.value.tenantID, r.value.id) == (schedule.tenantID, schedule.id)
  {
    var newSchedule := schedule;
    if newSchedule.scheduleType.Recurring? {
      if newSchedule.status.Active? {
        var next := ComputeNextRunAfter(newSchedule.recurrence, UTC, newSchedule.firstRunAt, scheduledFor);
        if next.Err? { return Err(CommandError(Validation, RecurrenceField)); }
        newSchedule := newSchedule.(nextRunAt := Some(next.value));
      }
    } else {
      newSchedule := newSchedule.(status := Completed, nextRunAt := None);
    }
    r := Ok(newSchedule);
  }

  /** Loads an execution that may still be finished. */
  method CheckUnfinished(tx: Tx, k: Key) returns (r: Result<Execution>)
    requires Ordered(tx.buckets)
    ensures tx.Faithful() && ColonFree(k.0) ==>
      if k !in tx.db.executions then r == Err(CommandError(NotFound, NoField))
      else if IsTerminal(tx.db.executions[k].status) then r == Err(CommandError(Conflict, StatusField))
      else r.Ok? && IsRow(tx.db, k, r.value)
  {
    var exec := tx.GetExecution(k.0, k.1);
    if exec.None? { return Err(CommandError(NotFound, NoField)); }
    if IsTerminal(exec.value.status) { return Err(CommandError(Conflict, StatusField)); }
    if tx.Faithful() && ColonFree(k.0) { StoredExecution(tx.buckets, tx.db, k); }
    r := Ok(exec.value);
  }

  /** The schedule table once the schedule under `k` has moved on from a finished slot. */
  function Advanced(schedules: map<Key, Schedule>, k: Key, scheduledFor: Instant): Result<map<Key, Schedule>> {
    if k !in schedules then Err(CommandError(NotFound, NoField))
    else
      var advanced := Fsm.AdvancedSchedule(RULES, schedules[k], scheduledFor);
      if advanced.Err? then Err(advanced.error) else Ok(schedules[k := advanced.value])
  }

  method MoveScheduleOn(tx: Tx, k: Key, scheduledFor: Instant) returns (r: Option<CommandError>)
    requires Ordered(tx.buckets)
    modifies tx
    ensures Ordered(tx.buckets)
    ensures old(tx.Faithful()) && ColonFree(k.0) ==>
      match Advanced(old(tx.db).schedules, k, scheduledFor)
      case Err(error) => r == Some(error)
      case Ok(schedules) => r.None? && tx.db == old(tx.db).(schedules := schedules) && tx.Faithful()
  {
    var schedule := tx.GetSchedule(k.0, k.1);
    if schedule.None? { return Some(CommandError(NotFound, NoField)); }
    if tx.Faithful() && ColonFree(k.0) { StoredSchedule(tx.buckets, tx.db, k); }
    var advanced := AdvanceSchedule(schedule.value, scheduledFor);
    if advanced.Err? { return Some(advanced.error); }
    ghost var schedules := tx.db.schedules[k := advanced.value];
    assert tx.Faithful() && ColonFree(k.0) ==> Advanced(tx.db.schedules, k, scheduledFor) == Ok(schedules);
    tx.PutSchedule(advanced.value);
    r := None;
  }

  function AsFinished(e: Execution, status: ExecutionStatus, outcome: string, now: Instant): Execution {
    e.(status := status, finalOutcome := outcome, completedAt := Some(now), ownerNodeID := "")
  }

  lemma FinishUnfolds(db: DB, k: Key, e: Execution, status: ExecutionStatus, outcome: string, now: Instant)
    requires IsRow(db, k, e) && !IsTerminal(e.status)
    ensures var spec, updated := Fsm.Finish(RULES, db, k, status, outcome, now), AsFinished(e, status, outcome, now);
            match Advanced(db.schedules, (k.0, e.scheduleID), e.scheduledFor)
            case Err(error) => spec == Fsm.Rejected(error)
            case Ok(schedules) =>
              spec == Fsm.Accepted(db.(executions := db.executions[k := updated], schedules := schedules),
                                   Fsm.ExecutionReply(updated))
  {
  }

  /** Writes the execution finished, and only then looks for its schedule and advances that; an
      error on the way leaves the execution already written. */
  method FinishExecution(tx: Tx, k: Key, status: ExecutionStatus, outcome: string, now: Instant)
      returns (r: Result<Reply>)
    requires Ordered(tx.buckets)
    modifies tx
    ensures Ordered(tx.buckets)
    ensures old(tx.Faithful()) && ColonFree(k.0) ==>
      Implements(Fsm.Finish(RULES, old(tx.db), k, status, outcome, now), r, tx.db, tx.Faithful())
  {
    var exec := CheckUnfinished(tx, k);
    if exec.Err? { return Err(exec.error); }
    if tx.Faithful() && ColonFree(k.0) { FinishUnfolds(tx.db, k, exec.value, status, outcome, now); }
    var updated := AsFinished(exec.value, status, outcome, now);
    tx.PutExecution(updated);
    var error := MoveScheduleOn(tx, (k.0, exec.value.scheduleID), exec.value.scheduledFor);
    r := if error.Some? then Err(error.value) else Ok(Fsm.ExecutionReply(updated));
  }

  method ApplyCompleteExecution(tx: Tx, cmd: Fsm.CompleteExecutionCommand, now: Instant) returns (r: Result<Reply>)
    requires Ordered(tx.buckets)
    modifies tx
    ensures Ordered(tx.buckets)
    ensures old(tx.Faithful()) && ColonFree(cmd.tenantID) ==>
      Implements(Fsm.ApplyCompleteExecution(RULES, old(tx.db), cmd, now), r, tx.db, tx.Faithful())
  {
    if cmd.tenantID == "" { return Fail(Validation, TenantIdField); }
    if cmd.executionID == "" { return Fail(Validation, ExecutionIdField); }
    if cmd.finalStatus.StatusMissing? { return Fail(Validation, FinalStatusField); }
    if cmd.finalOutcome == "" { return Fail(Validation, FinalOutcomeField); }
    if !IsTerminal(cmd.finalStatus) { return Fail(Validation, StatusField); }
    r := FinishExecution(tx, (cmd.tenantID, cmd.executionID), cmd.finalStatus, cmd.finalOutcome, now);
  }

  method ApplyFailExecutionTimeout(tx: Tx, cmd: Fsm.FailExecutionTimeoutCommand, now: Instant)
      returns (r: Result<Reply>)
    requires Ordered(tx.buckets)
    modifies tx
    ensures Ordered(tx.buckets)
    ensures old(tx.Faithful()) && ColonFree(cmd.tenantID) ==>
      Implements(Fsm.ApplyFailExecutionTimeout(RULES, old(tx.db), cmd, now), r, tx.db, tx.Faithful())
  {
    if cmd.tenantID == "" { return Fail(Validation, TenantIdField); }
    if cmd.executionID == "" { return Fail(Validation, ExecutionIdField); }
    if cmd.finalOutcome == "" { return Fail(Validation, FinalOutcomeField); }
    r := FinishExecution(tx, (cmd.tenantID, cmd.executionID), FailedMaxRetries, cmd.finalOutcome, now);
  }

  // ------------------------------------------------------------------ one log entry

  /** The switch on the command's type. */
  method Dispatch(tx: Tx, command: Command, now: Instant) returns (r: Result<Reply>)
    requires Ordered(tx.buckets)
    modifies tx
    ensures Ordered(tx.buckets)
    ensures old(tx.Faithful()) && Admissible(old(tx.db), command) ==>
      Implements(Fsm.Step(RULES, old(tx.db), Fsm.LogEntry(command, now)), r, tx.db, tx.Faithful())
  {
    match command
    case CreateTenant(cmd) => r := ApplyCreateTenant(tx, cmd, now);
    case CreateSchedule(cmd) => r := ApplyCreateSchedule(tx, cmd, now);
    case UpdateSchedule(cmd) => r := ApplyUpdateSchedule(tx, cmd, now);
    case PauseSchedule(t, id) => r := ApplyPauseSchedule(tx, t, id, now);
    case CancelSchedule(t, id) => r := ApplyCancelSchedule(tx, t, id, now);
    case ResumeSchedule(t, id) => r := ApplyResumeSchedule(tx, t, id, now);
    case _ => r := DispatchOnExecution(tx, command, now);
  }

  /** The commands that act on executions. */
  method DispatchOnExecution(tx: Tx, command: Command, now: Instant) returns (r: Result<Reply>)
    requires Ordered(tx.buckets)
    requires command.ClaimExecution? || command.AdoptExecution? || command.RecordAttempt?
             || command.CompleteExecution? || command.FailExecutionTimeout?
    modifies tx
    ensures Ordered(tx.buckets)
    ensures old(tx.Faithful()) && Admissible(old(tx.db), command) ==>
      Implements(Fsm.Step(RULES, old(tx.db), Fsm.LogEntry(command, now)), r, tx.db, tx.Faithful())
  {
    match command
    case ClaimExecution(cmd) => r := ApplyClaimExecution(tx, RULES, cmd, now);
    case AdoptExecution(cmd) => r := ApplyAdoptExecution(tx, cmd);
    case RecordAttempt(cmd) => r := ApplyRecordAttempt(tx, cmd);
    case CompleteExecution(cmd) => r := ApplyCompleteExecution(tx, cmd, now);
    case FailExecutionTimeout(cmd) => r := ApplyFailExecutionTimeout(tx, cmd, now);
  }
}
