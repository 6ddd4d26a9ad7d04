/**
 Gapless progress of protocol runs: a tick claims only what it has read, so the log behind a run
 claims only from reads, however late and by whomever a claim is committed.
 */
module ProtocolProgress {
  import opened Base
  import opened Calendar
  import opened Domain
  import opened Fsm
  import opened LogTheorems
  import opened Progress
  import opened SchedulerRules
  import opened RecurrenceTheorems
  import opened Protocol
  import opened ProtocolSafety
  import opened ProtocolTheorems

  /** Some state of the log had this next run. */
  ghost predicate SeenIn(rules: Rules, log: seq<LogEntry>, k: Key, t: Instant) {
    exists j: nat :: j <= |log| && NextRunOf(StateAt(rules, log, j), k) == Some(t)
  }

  lemma SeenStays(rules: Rules, log: seq<LogEntry>, entry: LogEntry, k: Key, t: Instant)
    requires SeenIn(rules, log, k, t)
    ensures SeenIn(rules, log + [entry], k, t)
  {
    var j: nat :| j <= |log| && NextRunOf(StateAt(rules, log, j), k) == Some(t);
    assert (log + [entry])[..j] == log[..j];
    assert NextRunOf(StateAt(rules, log + [entry], j), k) == Some(t);
  }

  function ClaimKey(claim: ClaimExecutionCommand): Key { (claim.tenantID, claim.scheduleID) }

  ghost predicate SightingsSeen(rules: Rules, log: seq<LogEntry>, s: State) {
    forall r :: r in s.sightings ==> SeenIn(rules, log, r.1, r.2)
  }

  /** A claim in doubt is for a time that was read. */
  ghost predicate DoubtsSeen(rules: Rules, log: seq<LogEntry>, s: State) {
    forall p :: p in s.pending && p.command.ClaimExecution? ==>
      SeenIn(rules, log, ClaimKey(p.command.claim), p.command.claim.scheduledFor)
  }

  ghost predicate FromReads(rules: Rules, log: seq<LogEntry>) {
    forall k :: ClaimsFromReads(rules, log, k)
  }

  lemma OneMoreEntry(rules: Rules, log: seq<LogEntry>, entry: LogEntry, k: Key)
    requires ClaimsFromReads(rules, log, k)
    requires ClaimsFor(entry.command, k) ==> SeenIn(rules, log, k, entry.command.claim.scheduledFor)
    ensures ClaimsFromReads(rules, log + [entry], k)
  {
    var longer := log + [entry];
    forall i | 0 <= i < |longer| && ClaimsFor(longer[i].command, k)
      ensures exists j: nat :: j <= i && NextRunOf(StateAt(rules, longer, j), k)
                               == Some(longer[i].command.claim.scheduledFor)
    {
      var j: nat :| j <= i && NextRunOf(StateAt(rules, log, j), k) == Some(longer[i].command.claim.scheduledFor);
      assert longer[..j] == log[..j];
      assert NextRunOf(StateAt(rules, longer, j), k) == Some(longer[i].command.claim.scheduledFor);
    }
  }

  /** What an event commits, if it is a claim, is for a time that was read. */
  lemma CommittedClaimIsSeen(rules: Rules, s: State, event: Event, log: seq<LogEntry>)
    requires RolesFit(s) && Enabled(s, event) && SightingsSeen(rules, log, s) && DoubtsSeen(rules, log, s)
    ensures var entry := CommittedEntry(s, event);
            entry.Some? && entry.value.command.ClaimExecution? ==>
              SeenIn(rules, log, ClaimKey(entry.value.command.claim), entry.value.command.claim.scheduledFor)
  {
    match event
    case TickClaim(n, claim, _, _) => assert (n, ClaimKey(claim), claim.scheduledFor) in s.sightings;
    case RecoverPropose(n, _) => WorkerMayStay(s, n);
    case _ =>
  }

  ghost function SightingOf(s: State, event: Event): (string, Key, Instant)
    requires event.ReadDue? && Enabled(s, event)
  {
    (event.node, event.k, s.db.schedules[event.k].nextRunAt.value)
  }

  /** Only reads of due schedules add sightings. */
  lemma SightingsOf(rules: Rules, s: State, event: Event)
    requires Enabled(s, event)
    ensures var next := Perform(rules, s, event).sightings;
            next <= s.sightings + if event.ReadDue? then {SightingOf(s, event)} else {}
  {
  }

  lemma ReadIsSeen(rules: Rules, s: State, log: seq<LogEntry>, k: Key)
    requires s.db == Run(rules, EMPTY_DB, log) && k in s.db.schedules && s.db.schedules[k].nextRunAt.Some?
    ensures SeenIn(rules, log, k, s.db.schedules[k].nextRunAt.value)
  {
    assert log[..|log|] == log;
    assert NextRunOf(StateAt(rules, log, |log|), k) == s.db.schedules[k].nextRunAt;
  }

  /** What an event sees or leaves in doubt was there to be read. */
  lemma NewSightingsAreSeen(rules: Rules, s: State, event: Event, log: seq<LogEntry>)
    requires Enabled(s, event) && SightingsSeen(rules, log, s) && s.db == Run(rules, EMPTY_DB, log)
    ensures SightingsSeen(rules, log, Perform(rules, s, event))
  {
    SightingsOf(rules, s, event);
    if event.ReadDue? {
      ReadIsSeen(rules, s, log, event.k);
    }
  }

  /** Only claims of ticks add claims in doubt. */
  lemma ClaimsInDoubt(rules: Rules, s: State, event: Event)
    requires RolesFit(s) && Enabled(s, event)
    ensures forall p :: p in Perform(rules, s, event).pending && p.command.ClaimExecution? ==>
              p in s.pending || (event.TickClaim? && p.command == ClaimExecution(event.claim))
  {
    if event.RecoverPropose? {
      WorkerMayStay(s, event.node);
    }
  }

  lemma NewDoubtsAreSeen(rules: Rules, s: State, event: Event, log: seq<LogEntry>)
    requires RolesFit(s) && Enabled(s, event) && SightingsSeen(rules, log, s) && DoubtsSeen(rules, log, s)
    ensures DoubtsSeen(rules, log, Perform(rules, s, event))
  {
    ClaimsInDoubt(rules, s, event);
    if event.TickClaim? {
      assert (event.node, ClaimKey(event.claim), event.claim.scheduledFor) in s.sightings;
    }
  }

  /** The log behind a run, with everything it has seen. */
  ghost predicate Explains(rules: Rules, log: seq<LogEntry>, s: State) {
    && FreshLog(rules, EMPTY_DB, log) && s.db == Run(rules, EMPTY_DB, log) && FromReads(rules, log)
    && SightingsSeen(rules, log, s) && DoubtsSeen(rules, log, s)
  }

  lemma ExtendedLog(rules: Rules, log: seq<LogEntry>, s: State, next: State, entry: LogEntry)
    requires FreshLog(rules, EMPTY_DB, log) && s.db == Run(rules, EMPTY_DB, log) && FromReads(rules, log)
    requires SightingsSeen(rules, log, next) && DoubtsSeen(rules, log, next)
    requires Fresh(s.db, entry.command) && next.db == After(rules, s.db, entry)
    requires entry.command.ClaimExecution? ==>
               SeenIn(rules, log, ClaimKey(entry.command.claim), entry.command.claim.scheduledFor)
    ensures Explains(rules, log + [entry], next)
  {
    var longer := log + [entry];
    assert longer[..|log|] == log;
    forall k ensures ClaimsFromReads(rules, longer, k) { OneMoreEntry(rules, log, entry, k); }
    forall r | r in next.sightings
      ensures SeenIn(rules, longer, r.1, r.2)
    {
      SeenStays(rules, log, entry, r.1, r.2);
    }
    forall p | p in next.pending && p.command.ClaimExecution?
      ensures SeenIn(rules, longer, ClaimKey(p.command.claim), p.command.claim.scheduledFor)
    {
      SeenStays(rules, log, entry, ClaimKey(p.command.claim), p.command.claim.scheduledFor);
    }
  }

  lemma EventIsExplained(rules: Rules, s: State, event: Event, log: seq<LogEntry>) returns (longer: seq<LogEntry>)
    requires RolesFit(s) && Explains(rules, log, s) && Enabled(s, event)
    ensures Explains(rules, longer, Perform(rules, s, event))
  {
    var next := Perform(rules, s, event);
    EventCommits(rules, s, event);
    CommittedClaimIsSeen(rules, s, event, log);
    NewSightingsAreSeen(rules, s, event, log);
    NewDoubtsAreSeen(rules, s, event, log);
    var committed := CommittedEntry(s, event);
    if committed.Some? {
      longer := log + [committed.value];
      ExtendedLog(rules, log, s, next, committed.value);
    } else {
      longer := log;
    }
  }

  lemma NothingSeenYet(rules: Rules)
    ensures Explains(rules, [], START)
  {
  }

  /** Behind every run there is one log with fresh IDs whose claims all come from reads. */
  lemma {:induction false} EveryRunIsALogOfReads(rules: Rules, events: seq<Event>) returns (log: seq<LogEntry>)
    ensures Explains(rules, log, RunFrom(rules, START, events))
  {
    if events == [] {
      NothingSeenYet(rules);
      log := [];
    } else {
      var s, event := RunFrom(rules, START, events[..|events| - 1]), events[|events| - 1];
      log := EveryRunIsALogOfReads(rules, events[..|events| - 1]);
      EveryRunIsSafe(rules, events[..|events| - 1]);
      if Enabled(s, event) {
        log := EventIsExplained(rules, s, event, log);
      }
    }
  }

  /** In every interleaving: a schedule with a gapless plan claims exactly its first slots, all but
      possibly the last have ended, and while active it waits for the first that has not. */
  lemma EveryRunIsGapless(events: seq<Event>, k: Key) returns (line: nat -> Instant, claimed: nat, ended: nat)
    requires var schedules := RunFrom(RULES, START, events).db.schedules; k in schedules && GaplessPlan(schedules[k])
    ensures var s := RunFrom(RULES, START, events).db.schedules[k];
            SlotLine(s.recurrence.value, s.timezone.offset, s.firstRunAt, line)
    ensures Gapless(RunFrom(RULES, START, events).db, k, line, claimed, ended)
  {
    var log := EveryRunIsALogOfReads(RULES, events);
    line, claimed, ended := SchedulerProgressIsGapless(log, k);
  }
}
