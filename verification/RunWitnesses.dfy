/**
 A run of two nodes that strands an execution: the second node's clock is behind, so the success it
 records has a smaller ID than the retry before, and it crashes before it proposes the completion.
 */
module RunWitnesses {
  import opened Base
  import opened Calendar
  import opened Domain
  import opened Fsm
  import opened SchedulerRules
  import opened Buckets
  import opened Storage
  import opened Worker
  import opened Protocol
  import opened ProtocolStranding
  import opened Witnesses

  ghost predicate Reached(s: State) { exists events :: RunFrom(RULES, START, events) == s }

  lemma Then(s: State, event: Event, next: State)
    requires Reached(s) && Enabled(s, event) && Perform(RULES, s, event) == next
    ensures Reached(next)
  {
    var events :| RunFrom(RULES, START, events) == s;
    var longer := events + [event];
    assert longer[..|events|] == events;
    assert RunFrom(RULES, START, longer) == next;
  }

  const X: Key := ("t", "x")
  const SEEN: set<(string, Key, Instant)> := {("n", S, 0)}

  /** A node without a worker is elected and starts to recover. */
  lemma Elected(s: State, n: string)
    requires Reached(s) && WorkerOf(s, n).Idle?
    ensures Reached(s.(leader := Some(n), pending := {}, workers := s.workers[n := Recovering(None)]))
  {
    var leading := s.(leader := Some(n), pending := {});
    Then(s, Elect(n), leading);
    Then(leading, BeginRecovery(n), leading.(workers := s.workers[n := Recovering(None)]));
  }

  lemma Created() returns (s: State)
    ensures Reached(s) && s == START.(db := s.db)
    ensures s.db == WithSchedule(EMPTY_DB, MinutelySchedule("s", CatchUpAll)) && Reachable(s.db)
  {
    EmptyIsReachable();
    Creating(EMPTY_DB, "s", CatchUpAll);
    assert RunFrom(RULES, START, []) == START;
    s := START.(db := WithSchedule(EMPTY_DB, MinutelySchedule("s", CatchUpAll)));
    Then(START, UserCommand(LogEntry(CreateSchedule(Minutely("s", CatchUpAll)), 0)), s);
  }

  lemma Begun() returns (s: State)
    ensures Reached(s) && s == State(s.db, Some("n"), {}, map["n" := Running({})], map[], SEEN)
    ensures s.db == WithSchedule(EMPTY_DB, MinutelySchedule("s", CatchUpAll)) && Reachable(s.db)
  {
    var created := Created();
    Elected(created, "n");
    var recovering := State(created.db, Some("n"), {}, map["n" := Recovering(None)], map[], {});
    var running := recovering.(workers := map["n" := Running({})]);
    Then(recovering, RecoverDone("n"), running);
    s := running.(sightings := SEEN);
    Then(running, ReadDue("n", S, 0), s);
  }

  lemma Fired() returns (s: State, e: Execution)
    ensures Reached(s) && s == State(s.db, Some("n"), {}, map["n" := Running({})],
                                     map[0 := Task("n", FreshFire, e, Queued)], SEEN)
    ensures Reachable(s.db) && s.db.schedules == map[S := MinutelySchedule("s", CatchUpAll)] && s.db.attempts == map[]
    ensures s.db.executions == map[X := e] && HasFirstSlot(e) && e.status.InFlight? && e.attemptCount == 0
            && e.ownerNodeID == "n"
  {
    var before := Begun();
    Claiming(before.db, FIRST_CLAIM, 1);
    e := NewExecution(RULES, FIRST_CLAIM, 1);
    s := before.(db := PutExecution(before.db, e), tasks := map[0 := Task("n", FreshFire, e, Queued)]);
    Then(before, TickClaim("n", FIRST_CLAIM, Committed(1), 0), s);
  }

  /** A task runs up to its proposal. */
  lemma Answered(s: State, i: nat, schedule: Schedule, id: string, failed: bool, delay: int)
    requires Reached(s) && i in s.tasks && s.tasks[i].phase.Queued? && !s.tasks[i].kind.Finalize?
             && Leads(s, s.tasks[i].node)
    requires ScheduleKeyOf(s.tasks[i].exec) in s.db.schedules
             && s.db.schedules[ScheduleKeyOf(s.tasks[i].exec)] == schedule
    requires schedule.status.Active?
    ensures Reached(SetPhase(s, i, Phase.Recording(RecordOf(s.tasks[i], schedule, id, failed, 200, 1, 2, delay))))
  {
    var calling := SetPhase(s, i, Calling(schedule));
    Then(s, ReadSchedule(i), calling);
    var record := RecordOf(s.tasks[i], schedule, id, failed, 200, 1, 2, delay);
    assert SetPhase(calling, i, Phase.Recording(record)) == SetPhase(s, i, Phase.Recording(record));
    Then(calling, Respond(i, id, failed, 200, 1, 2, delay), SetPhase(s, i, Phase.Recording(record)));
  }

  lemma Recorded(s: State, i: nat, e: Execution, record: RecordAttemptCommand, next: State)
    requires Reached(s) && i in s.tasks && s.tasks[i].phase == Phase.Recording(record) && Leads(s, s.tasks[i].node)
    requires Reachable(s.db) && X in s.db.executions && s.db.executions[X] == e && (e.tenantID, e.id) == X
    requires e.status.InFlight? && e.ownerNodeID == record.nodeID && RecordKeyOf(record) == X
             && ("t", record.id) !in s.db.attempts
    requires RecordFieldError(record).None?
    requires var db := WithAttempt(s.db, e, NewAttempt(e, record), record.retryAt);
             next == if record.outcome.OutcomeRetry? then EndTask(s.(db := db), i)
                     else SetPhase(s.(db := db), i, Completing(CompleteAs(X, !record.outcome.OutcomeTerminalFailure?)))
    ensures Reached(next) && Reachable(next.db)
  {
    RecordedBy(s.db, e, record);
    Then(s, ProposeRecord(i, Committed(2)), next);
  }

  /** The tables hold nothing but the schedule, the execution of its first slot, and attempts. */
  predicate OneExecution(db: DB, e: Execution) {
    && db.schedules == map[S := MinutelySchedule("s", CatchUpAll)] && db.executions == map[X := e]
    && HasFirstSlot(e) && e.status.InFlight?
  }

  /** The one attempt was a retry under the ID "b". */
  predicate OnceTried(db: DB, e: Execution, first: Attempt) {
    && OneExecution(db, e) && db.attempts == map[("t", "b") := first]
    && e.attemptCount == 1 && e.lastAttemptID == "b" && e.lastRetryAt == Some(5)
    && first.outcome.OutcomeRetry? && first.retryAt == 5 && ExecutionKeyOf(first) == X
  }

  lemma Retried() returns (s: State, e: Execution, first: Attempt)
    ensures Reached(s) && s == State(s.db, Some("n"), {}, map["n" := Running({})], map[], SEEN)
    ensures Reachable(s.db) && OnceTried(s.db, e, first) && e.ownerNodeID == "n"
  {
    var fired, e0 := Fired();
    var schedule := MinutelySchedule("s", CatchUpAll);
    Answered(fired, 0, schedule, "b", true, 3);
    assert RecordOf(fired.tasks[0], schedule, "b", true, 200, 1, 2, 3) == RETRY;
    var recording := SetPhase(fired, 0, Phase.Recording(RETRY));
    first := NewAttempt(e0, RETRY);
    s := EndTask(recording.(db := WithAttempt(fired.db, e0, first, RETRY.retryAt)), 0);
    Recorded(recording, 0, e0, RETRY, s);
    e := e0.(attemptCount := 1, lastAttemptID := "b", lastRetryAt := Some(5));
  }

  /** `n` crashes, and `m` takes over. */
  lemma TakenOver() returns (s: State, e: Execution, first: Attempt)
    ensures Reached(s) && s == State(s.db, Some("m"), {}, map["n" := Idle, "m" := Recovering(None)], map[], SEEN)
    ensures Reachable(s.db) && OnceTried(s.db, e, first) && e.ownerNodeID == "n"
  {
    var retried;
    retried, e, first := Retried();
    var crashed := retried.(leader := None, workers := map["n" := Idle]);
    Then(retried, Crash("n"), crashed);
    Elected(crashed, "m");
    s := State(crashed.db, Some("m"), {}, map["n" := Idle, "m" := Recovering(None)], map[], SEEN);
    assert s == crashed.(leader := Some("m"), pending := {}, workers := crashed.workers["m" := Recovering(None)]);
  }

  lemma OneListed(db: DB, first: Attempt)
    requires db.attempts == map[("t", "b") := first] && ExecutionKeyOf(first) == X
    ensures ListAttempts(db, "t", "x") == [first]
  {
    assert AttemptIds(db, "t", "x") == {"b"};
    var ids := ["b"];
    SortedUnique(InOrder({"b"}), ids);
  }

  const ADOPT := AdoptExecution(AdoptExecutionCommand("t", "x", "n", "m"))

  /** It reads the attempt and takes the execution for one to be retried. */
  lemma Reread() returns (s: State, e: Execution, first: Attempt)
    ensures Reached(s) && s == State(s.db, Some("m"), {}, map["n" := Idle, "m" := Recovering(Some(ADOPT))], map[], SEEN)
    ensures Reachable(s.db) && OnceTried(s.db, e, first) && e.ownerNodeID == "n"
  {
    var before;
    before, e, first := TakenOver();
    OneListed(before.db, first);
    s := before.(workers := map["n" := Idle, "m" := Recovering(Some(ADOPT))]);
    assert RecoveryCommand("m", e, RetryPending) == Some(ADOPT);
    Then(before, RecoverRead("m", e, 3), s);
  }

  lemma Readopted() returns (s: State, e: Execution, first: Attempt)
    ensures Reached(s) && s == State(s.db, Some("m"), {}, map["n" := Idle, "m" := Recovering(None)], map[], SEEN)
    ensures Reachable(s.db) && OnceTried(s.db, e, first) && e.ownerNodeID == "m"
  {
    var read, e1;
    read, e1, first := Reread();
    e := e1.(ownerNodeID := "m");
    AdoptedBy(read.db, e1, "m");
    s := read.(db := PutExecution(read.db, e), workers := map["n" := Idle, "m" := Recovering(None)]);
    Then(read, RecoverPropose("m", Committed(2)), s);
  }

  lemma Restarted() returns (s: State, e: Execution, first: Attempt)
    ensures Reached(s) && s == State(s.db, Some("m"), {}, map["n" := Idle, "m" := Running({})], map[], SEEN)
    ensures Reachable(s.db) && OnceTried(s.db, e, first) && e.ownerNodeID == "m"
  {
    var before;
    before, e, first := Readopted();
    s := before.(workers := map["n" := Idle, "m" := Running({})]);
    Then(before, RecoverDone("m"), s);
  }

  /** Its tick makes a retry task, */
  lemma Rescanned() returns (s: State, e: Execution, first: Attempt)
    ensures Reached(s)
         && s == State(s.db, Some("m"), {}, map["n" := Idle, "m" := Running({"t"})],
                       map[1 := Task("m", Retry, e, Queued)], SEEN)
    ensures Reachable(s.db) && OnceTried(s.db, e, first) && e.ownerNodeID == "m"
  {
    var before;
    before, e, first := Restarted();
    s := before.(workers := map["n" := Idle, "m" := Running({"t"})], tasks := map[1 := Task("m", Retry, e, Queued)]);
    assert ScanChooses(before, "t", 5, map[1 := X]);
    assert ScanTask(before.db, "m", X, 5) == Task("m", Retry, e, Queued);
    var chosen: map<nat, Key> := map[1 := X];
    var added := map i | i in chosen :: ScanTask(before.db, "m", chosen[i], 5);
    assert before.tasks + added == s.tasks && {} + {"t"} == {"t"};
    assert before.workers["m" := Running({"t"})] == s.workers;
    Then(before, TickScan("m", "t", 5, map[1 := X]), s);
  }

  /** which records a success under the ID "a". */
  lemma Succeeded() returns (s: State, e: Execution, first: Attempt, second: Attempt)
    ensures Reached(s) && s.leader == Some("m") && s.pending == {}
            && s.workers == map["n" := Idle, "m" := Running({"t"})]
    ensures s.tasks.Keys == {1} && s.tasks[1].node == "m"
    ensures OneExecution(s.db, e) && s.db.attempts == map[("t", "b") := first, ("t", "a") := second]
    ensures e.attemptCount == 2 && e.lastAttemptID == "a" && second.outcome.OutcomeSuccess?
            && ExecutionKeyOf(first) == X
  {
    var scanned, e1;
    scanned, e1, first := Rescanned();
    var schedule := MinutelySchedule("s", CatchUpAll);
    Answered(scanned, 1, schedule, "a", false, 0);
    assert RecordOf(scanned.tasks[1], schedule, "a", false, 200, 1, 2, 0) == SUCCESS;
    var recording := SetPhase(scanned, 1, Phase.Recording(SUCCESS));
    second := NewAttempt(e1, SUCCESS);
    s := SetPhase(recording.(db := WithAttempt(scanned.db, e1, second, SUCCESS.retryAt)), 1,
                  Completing(CompleteAs(X, true)));
    Recorded(recording, 1, e1, SUCCESS, s);
    e := e1.(attemptCount := 2, lastAttemptID := "a", lastRetryAt := None);
  }

  lemma SuccessIsHidden(db: DB, e: Execution, first: Attempt, second: Attempt)
    requires OneExecution(db, e) && db.attempts == map[("t", "b") := first, ("t", "a") := second]
    requires e.attemptCount == 2 && e.lastAttemptID == "a" && second.outcome.OutcomeSuccess?
             && ExecutionKeyOf(first) == X
    ensures Hidden(db, X)
  {
    assert ("t", "b") in db.attempts;
    assert "b" in AttemptIds(db, "t", "x") && !Less("b", "a");
    assert LastAttempt(db, X) == Some(second);
  }

  /** Then `m` crashes before the completion is proposed: a run that strands the execution
      (`StrandedForever`, `QueuedFinalizeProposesIff`). */
  lemma CrashStrands() returns (events: seq<Event>)
    ensures Stranded(RunFrom(RULES, START, events), X)
  {
    var before, e, first, second := Succeeded();
    var s := before.(leader := None, workers := map["n" := Idle, "m" := Idle], tasks := map[]);
    Then(before, Crash("m"), s);
    SuccessIsHidden(s.db, e, first, second);
    events :| RunFrom(RULES, START, events) == s;
  }
}
