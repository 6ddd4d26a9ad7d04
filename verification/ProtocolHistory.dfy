/**
 Where things come from: in every run, each claim, each task and each attempt is traced to the event
 that gave rise to it, and to what that event saw.
 */
module ProtocolHistory {
  import opened Base
  import opened Calendar
  import opened Domain
  import opened Fsm
  import opened Changes
  import opened LogTheorems
  import opened Progress
  import opened Storage
  import opened Worker
  import opened Protocol
  import opened ProtocolSafety
  import opened ProtocolTheorems
  import opened ProtocolBound
  import opened ProtocolProgress
  import opened Completions

  /** The state an event of a run meets. */
  ghost function Met(rules: Rules, events: seq<Event>, j: nat): State
    requires j <= |events|
  {
    RunFrom(rules, START, events[..j])
  }

  /** The event can happen there. */
  ghost predicate Happens(rules: Rules, events: seq<Event>, j: nat) {
    j < |events| && Enabled(Met(rules, events, j), events[j])
  }

  /** A run goes on: its events meet what they met. */
  lemma MetBefore(rules: Rules, events: seq<Event>, before: seq<Event>, j: nat)
    requires events != [] && before == events[..|events| - 1] && j <= |before|
    ensures Met(rules, events, j) == Met(rules, before, j)
    ensures j < |before| ==> events[j] == before[j] && (Happens(rules, events, j) <==> Happens(rules, before, j))
  {
    assert before[..j] == events[..j];
  }

  /** The last event meets the state before it. */
  lemma MetLast(rules: Rules, events: seq<Event>)
    requires events != []
    ensures var n := |events| - 1;
            && Met(rules, events, n) == RunFrom(rules, START, events[..n])
            && RunFrom(rules, START, events) == Next(rules, Met(rules, events, n), events[n])
  {
  }

  // ------------------------------------------------------------------ claims are due

  /** A tick reads schedule `k` as active and due at `t`, at a time that is not before `t`. */
  ghost predicate DueAt(rules: Rules, events: seq<Event>, j: nat, k: Key, t: Instant) {
    && Happens(rules, events, j) && events[j].ReadDue? && events[j].k == k && t <= events[j].now
    && var schedules := Met(rules, events, j).db.schedules;
       k in schedules && schedules[k].status.Active? && schedules[k].nextRunAt == Some(t)
  }

  ghost predicate WasDue(rules: Rules, events: seq<Event>, k: Key, t: Instant) {
    exists j :: DueAt(rules, events, j, k, t)
  }

  lemma WasDueStays(rules: Rules, events: seq<Event>, before: seq<Event>, k: Key, t: Instant)
    requires events != [] && before == events[..|events| - 1] && WasDue(rules, before, k, t)
    ensures WasDue(rules, events, k, t)
  {
    var j :| DueAt(rules, before, j, k, t);
    MetBefore(rules, events, before, j);
    assert DueAt(rules, events, j, k, t);
  }

  ghost predicate SightingsDue(rules: Rules, events: seq<Event>, s: State) {
    forall r :: r in s.sightings ==> WasDue(rules, events, r.1, r.2)
  }

  ghost predicate DoubtsDue(rules: Rules, events: seq<Event>, s: State) {
    forall p :: p in s.pending && p.command.ClaimExecution? ==>
      WasDue(rules, events, ClaimKey(p.command.claim), p.command.claim.scheduledFor)
  }

  ghost predicate ExecutionsDue(rules: Rules, events: seq<Event>, db: DB) {
    forall x :: x in db.executions ==>
      WasDue(rules, events, (x.0, db.executions[x].scheduleID), db.executions[x].scheduledFor)
  }

  ghost predicate AllDue(rules: Rules, events: seq<Event>, s: State) {
    SightingsDue(rules, events, s) && DoubtsDue(rules, events, s) && ExecutionsDue(rules, events, s.db)
  }

  lemma AllDueStays(rules: Rules, events: seq<Event>, before: seq<Event>, s: State)
    requires events != [] && before == events[..|events| - 1] && AllDue(rules, before, s)
    ensures AllDue(rules, events, s)
  {
    forall k, t | WasDue(rules, before, k, t)
      ensures WasDue(rules, events, k, t)
    {
      WasDueStays(rules, events, before, k, t);
    }
  }

  /** The sighting of the last event, if it is one. */
  lemma LastIsDue(rules: Rules, events: seq<Event>)
    requires events != [] && var n := |events| - 1; Happens(rules, events, n) && events[n].ReadDue?
    ensures var n := |events| - 1;
            var r := SightingOf(Met(rules, events, n), events[n]); WasDue(rules, events, r.1, r.2)
  {
    var n := |events| - 1;
    var r := SightingOf(Met(rules, events, n), events[n]);
    assert DueAt(rules, events, n, r.1, r.2);
  }

  lemma EventKeepsSightingsDue(rules: Rules, events: seq<Event>, s: State, event: Event)
    requires SightingsDue(rules, events, s) && Enabled(s, event)
    requires event.ReadDue? ==> var r := SightingOf(s, event); WasDue(rules, events, r.1, r.2)
    ensures SightingsDue(rules, events, Perform(rules, s, event))
  {
    SightingsOf(rules, s, event);
  }

  lemma EventKeepsDoubtsDue(rules: Rules, events: seq<Event>, s: State, event: Event)
    requires SightingsDue(rules, events, s) && DoubtsDue(rules, events, s) && RolesFit(s) && Enabled(s, event)
    ensures DoubtsDue(rules, events, Perform(rules, s, event))
  {
    ClaimsInDoubt(rules, s, event);
    if event.TickClaim? {
      assert (event.node, ClaimKey(event.claim), event.claim.scheduledFor) in s.sightings;
    }
  }

  lemma CommittedClaimIsDue(rules: Rules, events: seq<Event>, s: State, event: Event)
    requires SightingsDue(rules, events, s) && DoubtsDue(rules, events, s) && RolesFit(s) && Enabled(s, event)
    ensures var entry := CommittedEntry(s, event);
            entry.Some? && entry.value.command.ClaimExecution? ==>
              WasDue(rules, events, ClaimKey(entry.value.command.claim), entry.value.command.claim.scheduledFor)
  {
    match event
    case TickClaim(n, claim, _, _) => assert (n, ClaimKey(claim), claim.scheduledFor) in s.sightings;
    case RecoverPropose(n, _) => WorkerMayStay(s, n);
    case _ =>
  }

  lemma EntryKeepsExecutionsDue(rules: Rules, events: seq<Event>, db: DB, entry: LogEntry)
    requires SelfKeyed(db) && ExecutionsDue(rules, events, db)
    requires entry.command.ClaimExecution? ==>
               WasDue(rules, events, ClaimKey(entry.command.claim), entry.command.claim.scheduledFor)
    ensures ExecutionsDue(rules, events, After(rules, db, entry))
  {
    var next := After(rules, db, entry);
    forall x | x in next.executions
      ensures WasDue(rules, events, (x.0, next.executions[x].scheduleID), next.executions[x].scheduledFor)
    {
      NewIsClaimed(rules, db, entry, x);
    }
  }

  lemma EventKeepsDue(rules: Rules, events: seq<Event>, s: State, event: Event)
    requires Safe(rules, s) && AllDue(rules, events, s) && Enabled(s, event)
    requires event.ReadDue? ==> var r := SightingOf(s, event); WasDue(rules, events, r.1, r.2)
    ensures AllDue(rules, events, Perform(rules, s, event))
  {
    EventKeepsSightingsDue(rules, events, s, event);
    EventKeepsDoubtsDue(rules, events, s, event);
    CommittedClaimIsDue(rules, events, s, event);
    EventCommits(rules, s, event);
    if CommittedEntry(s, event).Some? {
      EntryKeepsExecutionsDue(rules, events, s.db, CommittedEntry(s, event).value);
    }
  }

  lemma NothingYet(rules: Rules)
    ensures AllDue(rules, [], START)
  {
  }

  lemma {:induction false} RunIsDue(rules: Rules, events: seq<Event>)
    ensures AllDue(rules, events, RunFrom(rules, START, events))
  {
    if events == [] {
      NothingYet(rules);
    } else {
      var before, event := events[..|events| - 1], events[|events| - 1];
      RunIsDue(rules, before);
      var s := RunFrom(rules, START, before);
      AllDueStays(rules, events, before, s);
      EveryRunIsSafe(rules, before);
      MetLast(rules, events);
      if Enabled(s, event) {
        if event.ReadDue? {
          LastIsDue(rules, events);
        }
        EventKeepsDue(rules, events, s, event);
      }
    }
  }

  /** In every run, every execution was claimed for a slot that a tick had read as the next run of its
      active schedule, once its time had come. */
  lemma EveryClaimWasDue(rules: Rules, events: seq<Event>, x: Key)
    requires x in RunFrom(rules, START, events).db.executions
    ensures var e := RunFrom(rules, START, events).db.executions[x];
            exists j :: DueAt(rules, events, j, (x.0, e.scheduleID), e.scheduledFor)
  {
    RunIsDue(rules, events);
  }

  // ------------------------------------------------------------------ retries are due

  /** A tick lists the execution in flight, as it then is, and makes task `i` of it: a retry once its
      time has come, a finalize task after a last attempt that is not to be retried. */
  ghost predicate ScannedAt(rules: Rules, events: seq<Event>, j: nat, i: nat, kind: Kind, exec: Execution) {
    && Happens(rules, events, j) && events[j].TickScan? && i in events[j].chosen && exec.status.InFlight?
    && (kind.Retry? ==> exec.lastRetryAt.Some? && exec.lastRetryAt.value <= events[j].now)
    && (kind.Finalize? ==> exec.lastAttemptID != "" && exec.lastRetryAt.None?)
    && var executions := Met(rules, events, j).db.executions;
       events[j].chosen[i] in executions && executions[events[j].chosen[i]] == exec
  }

  ghost predicate WasScanned(rules: Rules, events: seq<Event>, i: nat, kind: Kind, exec: Execution) {
    exists j :: ScannedAt(rules, events, j, i, kind, exec)
  }

  ghost predicate TasksScanned(rules: Rules, events: seq<Event>, tasks: map<nat, Task>) {
    forall i :: i in tasks && !tasks[i].kind.FreshFire? ==> WasScanned(rules, events, i, tasks[i].kind, tasks[i].exec)
  }

  lemma TasksScannedStay(rules: Rules, events: seq<Event>, before: seq<Event>, tasks: map<nat, Task>)
    requires events != [] && before == events[..|events| - 1] && TasksScanned(rules, before, tasks)
    ensures TasksScanned(rules, events, tasks)
  {
    forall i | i in tasks && !tasks[i].kind.FreshFire?
      ensures WasScanned(rules, events, i, tasks[i].kind, tasks[i].exec)
    {
      var j :| ScannedAt(rules, before, j, i, tasks[i].kind, tasks[i].exec);
      MetBefore(rules, events, before, j);
      assert ScannedAt(rules, events, j, i, tasks[i].kind, tasks[i].exec);
    }
  }

  /** The task is new, or has the kind and the snapshot it had. */
  predicate HasOrigin(s: State, event: Event, i: nat, t: Task)
    requires event.TickScan? ==> forall j :: j in event.chosen ==> event.chosen[j] in s.db.executions
  {
    || t.kind.FreshFire?
    || (i in s.tasks && s.tasks[i].kind == t.kind && s.tasks[i].exec == t.exec)
    || (event.TickScan? && i in event.chosen && t == ScanTask(s.db, event.node, event.chosen[i], event.now))
  }

  lemma ProposalOrigins(rules: Rules, s: State, event: Event, i: nat)
    requires Enabled(s, event) && IsProposal(event) && i in Perform(rules, s, event).tasks
    ensures HasOrigin(s, event, i, Perform(rules, s, event).tasks[i])
  {
  }

  /** Only a tick's scan makes such tasks, and nothing changes their snapshots. */
  lemma TaskOrigins(rules: Rules, s: State, event: Event, i: nat)
    requires Enabled(s, event) && i in Perform(rules, s, event).tasks
    ensures HasOrigin(s, event, i, Perform(rules, s, event).tasks[i])
  {
    if IsProposal(event) {
      ProposalOrigins(rules, s, event, i);
    }
  }

  lemma LastIsScanned(rules: Rules, events: seq<Event>, i: nat)
    requires events != [] && Happens(rules, events, |events| - 1)
    requires events[|events| - 1].TickScan? && i in events[|events| - 1].chosen
    ensures var s, event := Met(rules, events, |events| - 1), events[|events| - 1];
            var t := ScanTask(s.db, event.node, event.chosen[i], event.now);
            WasScanned(rules, events, i, t.kind, t.exec)
  {
    var s, event := Met(rules, events, |events| - 1), events[|events| - 1];
    var t := ScanTask(s.db, event.node, event.chosen[i], event.now);
    assert ScannedAt(rules, events, |events| - 1, i, t.kind, t.exec);
  }

  lemma {:induction false} RunIsScanned(rules: Rules, events: seq<Event>)
    ensures TasksScanned(rules, events, RunFrom(rules, START, events).tasks)
  {
    if events != [] {
      var before, event := events[..|events| - 1], events[|events| - 1];
      var s, next := RunFrom(rules, START, before), RunFrom(rules, START, events);
      RunIsScanned(rules, before);
      TasksScannedStay(rules, events, before, s.tasks);
      MetLast(rules, events);
      if Enabled(s, event) {
        forall i | i in next.tasks && !next.tasks[i].kind.FreshFire?
          ensures WasScanned(rules, events, i, next.tasks[i].kind, next.tasks[i].exec)
        {
          TaskOrigins(rules, s, event, i);
          if event.TickScan? && i in event.chosen {
            LastIsScanned(rules, events, i);
          }
        }
      }
    }
  }

  /** In every run, every retry task was made by a tick that found the retry's time passed. */
  lemma RetriesAreDue(rules: Rules, events: seq<Event>, i: nat)
    requires var s := RunFrom(rules, START, events); i in s.tasks && s.tasks[i].kind.Retry?
    ensures var e := RunFrom(rules, START, events).tasks[i].exec;
            exists j: nat :: ScannedAt(rules, events, j, i, Retry, e)
                             && e.lastRetryAt.Some? && e.lastRetryAt.value <= events[j].now
  {
    RunIsScanned(rules, events);
  }

  // ------------------------------------------------------------------ calls are active

  /** Task `i` reads the schedule of its execution, and finds it active. */
  ghost predicate CalledAt(rules: Rules, events: seq<Event>, j: nat, i: nat, exec: Execution, schedule: Schedule) {
    && Happens(rules, events, j) && events[j] == ReadSchedule(i) && schedule.status.Active?
    && var s := Met(rules, events, j);
       && i in s.tasks && s.tasks[i].exec == exec
       && ScheduleKeyOf(exec) in s.db.schedules && s.db.schedules[ScheduleKeyOf(exec)] == schedule
  }

  ghost predicate WasCalled(rules: Rules, events: seq<Event>, i: nat, exec: Execution, schedule: Schedule) {
    exists j :: CalledAt(rules, events, j, i, exec, schedule)
  }

  ghost predicate CallsWereRead(rules: Rules, events: seq<Event>, tasks: map<nat, Task>) {
    forall i :: i in tasks && tasks[i].phase.Calling? ==>
      WasCalled(rules, events, i, tasks[i].exec, tasks[i].phase.schedule)
  }

  lemma CallsWereReadStays(rules: Rules, events: seq<Event>, before: seq<Event>, tasks: map<nat, Task>)
    requires events != [] && before == events[..|events| - 1] && CallsWereRead(rules, before, tasks)
    ensures CallsWereRead(rules, events, tasks)
  {
    forall i | i in tasks && tasks[i].phase.Calling?
      ensures WasCalled(rules, events, i, tasks[i].exec, tasks[i].phase.schedule)
    {
      var j :| CalledAt(rules, before, j, i, tasks[i].exec, tasks[i].phase.schedule);
      MetBefore(rules, events, before, j);
      assert CalledAt(rules, events, j, i, tasks[i].exec, tasks[i].phase.schedule);
    }
  }

  /** A proposal leaves a task as it was, makes a queued one, or goes on to complete. */
  lemma ProposalKeepsTasks(rules: Rules, s: State, event: Event, i: nat)
    requires Enabled(s, event) && IsProposal(event) && i in Perform(rules, s, event).tasks
    ensures var t := Perform(rules, s, event).tasks[i];
            (i in s.tasks && s.tasks[i] == t) || t.phase.Queued? || t.phase.Completing?
  {
  }

  lemma CallOrigins(rules: Rules, s: State, event: Event, i: nat)
    requires Enabled(s, event) && i in Perform(rules, s, event).tasks
    requires Perform(rules, s, event).tasks[i].phase.Calling?
    ensures var t := Perform(rules, s, event).tasks[i];
            || (i in s.tasks && s.tasks[i] == t)
            || (event == ReadSchedule(i) && t == s.tasks[i].(phase := Calling(s.db.schedules[ScheduleKeyOf(t.exec)])))
  {
    if IsProposal(event) {
      ProposalKeepsTasks(rules, s, event, i);
    }
  }

  lemma LastIsCalled(rules: Rules, events: seq<Event>, i: nat)
    requires events != [] && Happens(rules, events, |events| - 1) && events[|events| - 1] == ReadSchedule(i)
    ensures var s := Met(rules, events, |events| - 1);
            WasCalled(rules, events, i, s.tasks[i].exec, s.db.schedules[ScheduleKeyOf(s.tasks[i].exec)])
  {
    var s := Met(rules, events, |events| - 1);
    assert CalledAt(rules, events, |events| - 1, i, s.tasks[i].exec, s.db.schedules[ScheduleKeyOf(s.tasks[i].exec)]);
  }

  lemma {:induction false} RunIsCalled(rules: Rules, events: seq<Event>)
    ensures CallsWereRead(rules, events, RunFrom(rules, START, events).tasks)
  {
    if events != [] {
      var before, event := events[..|events| - 1], events[|events| - 1];
      var s, next := RunFrom(rules, START, before), RunFrom(rules, START, events);
      RunIsCalled(rules, before);
      CallsWereReadStays(rules, events, before, s.tasks);
      MetLast(rules, events);
      if Enabled(s, event) {
        forall i | i in next.tasks && next.tasks[i].phase.Calling?
          ensures WasCalled(rules, events, i, next.tasks[i].exec, next.tasks[i].phase.schedule)
        {
          CallOrigins(rules, s, event, i);
          if event == ReadSchedule(i) {
            LastIsCalled(rules, events, i);
          }
        }
      }
    }
  }

  /** In every run, a task that calls the receiver has read its schedule as active. */
  lemma CallsAreActive(rules: Rules, events: seq<Event>, i: nat)
    requires var s := RunFrom(rules, START, events); i in s.tasks && s.tasks[i].phase.Calling?
    ensures var t := RunFrom(rules, START, events).tasks[i];
            t.phase.schedule.status.Active? && exists j :: CalledAt(rules, events, j, i, t.exec, t.phase.schedule)
  {
    RunIsCalled(rules, events);
  }

  /** The schedule of a task is missing or not active. */
  predicate IsHeldBack(db: DB, t: Task) {
    var k := ScheduleKeyOf(t.exec); k in db.schedules ==> !db.schedules[k].status.Active?
  }

  lemma ProposalLeavesQueued(rules: Rules, s: State, event: Event, i: nat)
    requires i in s.tasks && s.tasks[i].phase.Queued? && Enabled(s, event) && IsProposal(event)
    ensures var next := Perform(rules, s, event).tasks; i in next && next[i] == s.tasks[i]
  {
  }

  /** A queued task that would call for such a schedule can only stay as it is, or end. */
  lemma HeldBackOnlyEnds(rules: Rules, s: State, event: Event, i: nat)
    requires i in s.tasks && s.tasks[i].phase.Queued? && !s.tasks[i].kind.Finalize? && IsHeldBack(s.db, s.tasks[i])
    requires Enabled(s, event)
    ensures var next := Perform(rules, s, event).tasks; i in next ==> next[i] == s.tasks[i]
  {
    if IsProposal(event) {
      ProposalLeavesQueued(rules, s, event, i);
    }
  }

  /** And over a further run, while its schedule is held back, it stays queued until it has ended. */
  lemma {:induction false} HeldBackWhileItLasts(rules: Rules, s: State, more: seq<Event>, i: nat)
    requires i in s.tasks && s.tasks[i].phase.Queued? && !s.tasks[i].kind.Finalize?
    requires forall n :: 0 <= n <= |more| ==> IsHeldBack(RunFrom(rules, s, more[..n]).db, s.tasks[i])
    requires forall n :: 0 <= n < |more| ==> i in RunFrom(rules, s, more[..n]).tasks
    ensures var after := RunFrom(rules, s, more).tasks; i in after ==> after[i] == s.tasks[i]
  {
    if more != [] {
      var before := more[..|more| - 1];
      forall n | 0 <= n <= |before|
        ensures before[..n] == more[..n]
      {
      }
      HeldBackWhileItLasts(rules, s, before, i);
      assert before[..|before|] == before;
      var mid, event := RunFrom(rules, s, before), more[|more| - 1];
      if Enabled(mid, event) {
        HeldBackOnlyEnds(rules, mid, event, i);
      }
    }
  }

  // ------------------------------------------------------------------ attempts are answers

  /** What a task records of an answer: who called, where, when and with what result; a success for a
      2xx answer, and otherwise a failure that keeps to the limit of the schedule it has read. */
  ghost predicate TellsAnswer(r: RecordAttemptCommand, t: Task, schedule: Schedule, event: Event)
    requires event.Respond?
  {
    && (r.tenantID, r.executionID) == TaskKey(t) && r.id == event.id && r.nodeID == t.node
    && r.startedAt == Some(event.startedAt) && r.completedAt == Some(event.completedAt)
    && r.requestURL == schedule.callbackURL && r.responseStatus == event.status
    && (r.outcome.OutcomeSuccess? <==> !event.failed && 200 <= event.status <= 299)
    && (r.outcome.OutcomeSuccess? || r.outcome.OutcomeRetry? || r.outcome.OutcomeTerminalFailure?)
    && KeepsLimit(r.outcome, t.exec.attemptCount + 1, schedule.maxAttempts)
    && r.retryAt == if r.outcome.OutcomeRetry? then Some(event.completedAt + event.delay) else None
  }

  /** The record made of an answer. */
  ghost function AnswerOf(s: State, event: Event): RecordAttemptCommand
    requires Enabled(s, event) && event.Respond?
  {
    var t := s.tasks[event.task];
    RecordOf(t, t.phase.schedule, event.id, event.failed, event.status, event.startedAt, event.completedAt, event.delay)
  }

  /** A task that is calling for an active schedule gets its answer and makes this record of it. */
  ghost predicate AnsweredAt(rules: Rules, events: seq<Event>, j: nat, r: RecordAttemptCommand) {
    && Happens(rules, events, j) && events[j].Respond?
    && var s := Met(rules, events, j);
       && events[j].task in s.tasks && s.tasks[events[j].task].phase.Calling?
       && var t := s.tasks[events[j].task];
          t.phase.schedule.status.Active? && TellsAnswer(r, t, t.phase.schedule, events[j])
  }

  ghost predicate WasAnswered(rules: Rules, events: seq<Event>, r: RecordAttemptCommand) {
    exists j :: AnsweredAt(rules, events, j, r)
  }

  lemma WasAnsweredStays(rules: Rules, events: seq<Event>, before: seq<Event>, r: RecordAttemptCommand)
    requires events != [] && before == events[..|events| - 1] && WasAnswered(rules, before, r)
    ensures WasAnswered(rules, events, r)
  {
    var j :| AnsweredAt(rules, before, j, r);
    MetBefore(rules, events, before, j);
    assert AnsweredAt(rules, events, j, r);
  }

  /** The row of a recorded attempt. */
  ghost predicate IsRowOf(a: Attempt, r: RecordAttemptCommand) {
    && a.id == r.id && a.tenantID == r.tenantID && a.executionID == r.executionID && a.nodeID == r.nodeID
    && a.startedAt == r.startedAt && a.completedAt == r.completedAt && a.requestURL == r.requestURL
    && a.responseStatus == r.responseStatus && a.outcome == r.outcome
    && a.retryAt == if r.retryAt.Some? then r.retryAt.value else ZERO_TIME
  }

  ghost predicate RecordsAnswered(rules: Rules, events: seq<Event>, s: State) {
    && (forall i :: i in s.tasks && s.tasks[i].phase.Recording? ==> WasAnswered(rules, events, s.tasks[i].phase.record))
    && (forall p :: p in s.pending && p.command.RecordAttempt? ==> WasAnswered(rules, events, p.command.record))
  }

  ghost predicate AttemptsAnswered(rules: Rules, events: seq<Event>, db: DB) {
    forall a :: a in db.attempts ==> exists r :: WasAnswered(rules, events, r) && IsRowOf(db.attempts[a], r)
  }

  lemma AnswersStay(rules: Rules, events: seq<Event>, before: seq<Event>, s: State)
    requires events != [] && before == events[..|events| - 1]
    requires RecordsAnswered(rules, before, s) && AttemptsAnswered(rules, before, s.db)
    ensures RecordsAnswered(rules, events, s) && AttemptsAnswered(rules, events, s.db)
  {
    forall r | WasAnswered(rules, before, r)
      ensures WasAnswered(rules, events, r)
    {
      WasAnsweredStays(rules, events, before, r);
    }
  }

  lemma RecordOrigins(rules: Rules, s: State, event: Event, i: nat)
    requires Enabled(s, event) && i in Perform(rules, s, event).tasks
    requires Perform(rules, s, event).tasks[i].phase.Recording?
    ensures var t := Perform(rules, s, event).tasks[i];
            || (i in s.tasks && s.tasks[i] == t)
            || (event.Respond? && event.task == i && t.phase.record == AnswerOf(s, event))
  {
    if IsProposal(event) {
      ProposalKeepsTasks(rules, s, event, i);
    }
  }

  lemma RecordsInDoubt(rules: Rules, s: State, event: Event)
    requires RolesFit(s) && Enabled(s, event)
    ensures forall p :: p in Perform(rules, s, event).pending && p.command.RecordAttempt? ==>
              p in s.pending || (event.ProposeRecord? && p.command.record == s.tasks[event.task].phase.record)
  {
    if event.RecoverPropose? {
      WorkerMayStay(s, event.node);
    }
  }

  lemma CommittedRecordIsAnswered(rules: Rules, events: seq<Event>, s: State, event: Event)
    requires RolesFit(s) && RecordsAnswered(rules, events, s) && Enabled(s, event)
    ensures var entry := CommittedEntry(s, event);
            entry.Some? && entry.value.command.RecordAttempt? ==> WasAnswered(rules, events, entry.value.command.record)
  {
    if event.RecoverPropose? {
      WorkerMayStay(s, event.node);
    }
  }

  /** An entry adds at most the attempt it records. */
  lemma NewIsRecorded(rules: Rules, db: DB, entry: LogEntry, a: Key)
    requires SelfKeyed(db) && a in After(rules, db, entry).attempts
    ensures var row := After(rules, db, entry).attempts[a];
            || (a in db.attempts && row == db.attempts[a])
            || (entry.command.RecordAttempt? && IsRowOf(row, entry.command.record))
  {
    StepIsChange(rules, db, entry);
  }

  lemma EntryKeepsAttemptsAnswered(rules: Rules, events: seq<Event>, db: DB, entry: LogEntry)
    requires SelfKeyed(db) && AttemptsAnswered(rules, events, db)
    requires entry.command.RecordAttempt? ==> WasAnswered(rules, events, entry.command.record)
    ensures AttemptsAnswered(rules, events, After(rules, db, entry))
  {
    var next := After(rules, db, entry);
    forall a | a in next.attempts
      ensures exists r :: WasAnswered(rules, events, r) && IsRowOf(next.attempts[a], r)
    {
      NewIsRecorded(rules, db, entry, a);
    }
  }

  /** What a calling task makes of its answer. */
  lemma RecordTellsAnswer(s: State, event: Event)
    requires Enabled(s, event) && event.Respond?
    requires PhaseFits(s.tasks[event.task])
    ensures var t := s.tasks[event.task]; TellsAnswer(AnswerOf(s, event), t, t.phase.schedule, event)
  {
  }

  lemma LastIsAnswered(rules: Rules, events: seq<Event>)
    requires events != [] && Happens(rules, events, |events| - 1) && events[|events| - 1].Respond?
    requires CommandsFit(Met(rules, events, |events| - 1))
    requires CallsWereRead(rules, events, Met(rules, events, |events| - 1).tasks)
    ensures WasAnswered(rules, events, AnswerOf(Met(rules, events, |events| - 1), events[|events| - 1]))
  {
    var s, event := Met(rules, events, |events| - 1), events[|events| - 1];
    var t := s.tasks[event.task];
    assert PhaseFits(t);
    RecordTellsAnswer(s, event);
    assert WasCalled(rules, events, event.task, t.exec, t.phase.schedule);
    assert AnsweredAt(rules, events, |events| - 1, AnswerOf(s, event));
  }

  lemma EventKeepsAnswers(rules: Rules, events: seq<Event>, s: State, event: Event)
    requires Safe(rules, s) && RecordsAnswered(rules, events, s) && AttemptsAnswered(rules, events, s.db)
    requires Enabled(s, event) && (event.Respond? ==> WasAnswered(rules, events, AnswerOf(s, event)))
    ensures RecordsAnswered(rules, events, Perform(rules, s, event))
    ensures AttemptsAnswered(rules, events, Perform(rules, s, event).db)
  {
    var next := Perform(rules, s, event);
    forall i | i in next.tasks && next.tasks[i].phase.Recording?
      ensures WasAnswered(rules, events, next.tasks[i].phase.record)
    {
      RecordOrigins(rules, s, event, i);
    }
    RecordsInDoubt(rules, s, event);
    CommittedRecordIsAnswered(rules, events, s, event);
    EventCommits(rules, s, event);
    if CommittedEntry(s, event).Some? {
      EntryKeepsAttemptsAnswered(rules, events, s.db, CommittedEntry(s, event).value);
    }
  }

  lemma {:induction false} RunIsAnswered(rules: Rules, events: seq<Event>)
    ensures RecordsAnswered(rules, events, RunFrom(rules, START, events))
    ensures AttemptsAnswered(rules, events, RunFrom(rules, START, events).db)
  {
    if events != [] {
      var before, event := events[..|events| - 1], events[|events| - 1];
      var s := RunFrom(rules, START, before);
      RunIsAnswered(rules, before);
      AnswersStay(rules, events, before, s);
      EveryRunIsSafe(rules, before);
      RunIsCalled(rules, before);
      CallsWereReadStays(rules, events, before, s.tasks);
      MetLast(rules, events);
      if Enabled(s, event) {
        if event.Respond? {
          LastIsAnswered(rules, events);
        }
        EventKeepsAnswers(rules, events, s, event);
      }
    }
  }

  /** In every run, every attempt on record tells of an answer to a task that was calling for a
      schedule it had read as active. */
  lemma EveryAttemptWasAnswered(rules: Rules, events: seq<Event>, a: Key)
    requires a in RunFrom(rules, START, events).db.attempts
    ensures exists j, r :: AnsweredAt(rules, events, j, r) && IsRowOf(RunFrom(rules, START, events).db.attempts[a], r)
  {
    RunIsAnswered(rules, events);
    var r :| WasAnswered(rules, events, r) && IsRowOf(RunFrom(rules, START, events).db.attempts[a], r);
    var j :| AnsweredAt(rules, events, j, r);
  }
}
