/**
 The decisions a worker takes (`internal/scheduler/worker.go`): how an attempt is classified,
 what a tick does with an execution in flight, and what recovery does with it.
 */
module Worker {
  import opened Base
  import opened Calendar
  import opened Domain
  import opened Fsm
  import opened Changes
  import opened LogTheorems
  import opened Buckets
  import opened Storage

  datatype Bucket = NoAttempts | Success | TerminalFailure | RetryElapsed | RetryPending

  /** 2xx without a transport error is success; anything else is retried while attempts last.
      A limit of 0 or less never runs out. */
  function ClassifyAttemptOutcome(status: int, failed: bool, attemptNumber: int, maxAttempts: int): (r: AttemptOutcome)
    ensures r.OutcomeSuccess? <==> !failed && 200 <= status <= 299
    ensures r.OutcomeTerminalFailure? <==> (failed || status < 200 || 300 <= status) && 0 < maxAttempts <= attemptNumber
    ensures r.OutcomeRetry? <==> !r.OutcomeSuccess? && (maxAttempts <= 0 || attemptNumber < maxAttempts)
  {
    if !failed && 200 <= status < 300 then OutcomeSuccess
    else if maxAttempts > 0 && attemptNumber >= maxAttempts then OutcomeTerminalFailure
    else OutcomeRetry
  }

  /** Recovery's reading of an execution's attempts, listed by ID; None for an unknown outcome. */
  function ClassifyOne(attempts: seq<Attempt>, now: Instant): Option<Bucket> {
    if attempts == [] then Some(NoAttempts)
    else
      var last := attempts[|attempts| - 1];
      match last.outcome
      case OutcomeSuccess => Some(Success)
      case OutcomeTerminalFailure => Some(TerminalFailure)
      case OutcomeRetry => Some(if now >= last.retryAt then RetryElapsed else RetryPending)
      case _ => None
  }

  datatype Decision = Leave | DispatchRetry | DispatchFinalize

  /** A tick's reading of the fields cached on the execution. */
  function TickDecision(e: Execution, now: Instant): Decision {
    if e.lastAttemptID != "" && e.lastRetryAt.None? then DispatchFinalize
    else if e.lastRetryAt.Some? && e.lastRetryAt.value <= now then DispatchRetry
    else Leave
  }

  const OUTCOME_SUCCESS := "success"
  const OUTCOME_TERMINAL_FAILURE := "terminal_failure"

  function CompleteAs(k: Key, success: bool): CompleteExecutionCommand {
    if success then CompleteExecutionCommand(k.0, k.1, Succeeded, OUTCOME_SUCCESS)
    else CompleteExecutionCommand(k.0, k.1, FailedTerminal, OUTCOME_TERMINAL_FAILURE)
  }

  /** What runFinalize proposes after reading the attempts; None in its two error branches. */
  function FinalizeCommand(k: Key, attempts: seq<Attempt>): Option<CompleteExecutionCommand> {
    if attempts == [] then None
    else
      match attempts[|attempts| - 1].outcome
      case OutcomeSuccess => Some(CompleteAs(k, true))
      case OutcomeTerminalFailure => Some(CompleteAs(k, false))
      case _ => None
  }

  /** What adoptOrComplete proposes, if anything. */
  function RecoveryCommand(node: string, e: Execution, bucket: Bucket): Option<Command> {
    var k := (e.tenantID, e.id);
    match bucket
    case Success => Some(CompleteExecution(CompleteAs(k, true)))
    case TerminalFailure => Some(CompleteExecution(CompleteAs(k, false)))
    case _ =>
      if e.ownerNodeID == node then None
      else Some(AdoptExecution(AdoptExecutionCommand(e.tenantID, e.id, e.ownerNodeID, node)))
  }

  // ------------------------------------------------------------------ what workers record

  /** Recorded by a worker: a known outcome, and a retry time exactly for a retry. */
  ghost predicate WorkerMade(cmd: RecordAttemptCommand) {
    && (cmd.outcome.OutcomeSuccess? || cmd.outcome.OutcomeRetry? || cmd.outcome.OutcomeTerminalFailure?)
    && (cmd.retryAt.Some? <==> cmd.outcome.OutcomeRetry?)
  }

  function LastAttempt(db: DB, k: Key): Option<Attempt> {
    if k !in db.executions then None
    else
      var last := (k.0, db.executions[k].lastAttemptID);
      if last in db.attempts then Some(db.attempts[last]) else None
  }

  /** The fields an execution caches agree with its last attempt. */
  ghost predicate CachedAt(e: Execution, last: Option<Attempt>) {
    if e.attemptCount == 0 then e.lastRetryAt.None?
    else
      last.Some? &&
      if last.value.outcome.OutcomeRetry? then e.lastRetryAt == Some(last.value.retryAt)
      else e.lastRetryAt.None? && (last.value.outcome.OutcomeSuccess? || last.value.outcome.OutcomeTerminalFailure?)
  }

  ghost predicate Cached(db: DB) {
    forall k :: k in db.executions ==> CachedAt(db.executions[k], LastAttempt(db, k))
  }

  ghost predicate RetryUnlessLast(executions: map<Key, Execution>, a: Attempt) {
    var k := ExecutionKeyOf(a);
    k in executions && (a.attemptNumber < executions[k].attemptCount ==> a.outcome.OutcomeRetry?)
  }

  /** Only the last attempt of an execution can be anything but a retry. */
  ghost predicate OnlyLastSettles(db: DB) {
    forall a :: a in db.attempts ==> RetryUnlessLast(db.executions, db.attempts[a])
  }

  /** Attempt IDs increase in the order the attempts were recorded. */
  ghost predicate IdsIncrease(attempts: map<Key, Attempt>) {
    forall a, b :: (a in attempts && b in attempts && ExecutionKeyOf(attempts[a]) == ExecutionKeyOf(attempts[b])
                    && attempts[a].attemptNumber < attempts[b].attemptNumber) ==> Less(a.1, b.1)
  }

  /** The attempt an execution names as its last has the greatest ID of its attempts. */
  ghost predicate LastIsGreatest(db: DB, k: Key)
    requires k in db.executions
  {
    forall id :: id in AttemptIds(db, k.0, k.1) ==>
      id == db.executions[k].lastAttemptID || Less(id, db.executions[k].lastAttemptID)
  }

  // ------------------------------------------------------------------ the greatest ID

  lemma ListedAttempts(db: DB, k: Key, id: string)
    requires SelfKeyed(db)
    ensures id in AttemptIds(db, k.0, k.1) <==> (k.0, id) in db.attempts && ExecutionKeyOf(db.attempts[(k.0, id)]) == k
  {
    if id in AttemptIds(db, k.0, k.1) {
      var p :| p in db.attempts && p.0 == k.0 && db.attempts[p].executionID == k.1 && p.1 == id;
      assert p == (k.0, id);
    }
  }

  /** IDs in record order make the last attempt the one with the greatest ID. */
  lemma IncreasingIdsSuffice(db: DB, k: Key)
    requires SelfKeyed(db) && AuditTrail(db) && IdsIncrease(db.attempts) && k in db.executions
    ensures LastIsGreatest(db, k)
  {
    forall id | id in AttemptIds(db, k.0, k.1)
      ensures id == db.executions[k].lastAttemptID || Less(id, db.executions[k].lastAttemptID)
    {
      ListedAttempts(db, k, id);
      var a, last := (k.0, id), (k.0, db.executions[k].lastAttemptID);
      assert db.attempts[a].attemptNumber <= db.executions[k].attemptCount;
      assert db.attempts[a].attemptNumber == db.executions[k].attemptCount ==> a == last;
    }
  }

  lemma LastOfSorted(ids: seq<string>, i: nat)
    requires Sorted(ids) && i < |ids|
    ensures ids[i] == ids[|ids| - 1] || Less(ids[i], ids[|ids| - 1])
  {
  }

  /** A member that nothing in a sorted list exceeds is its end. */
  lemma LargestIsLast(ids: seq<string>, last: string)
    requires Sorted(ids) && last in ids && (ids[|ids| - 1] == last || Less(ids[|ids| - 1], last))
    ensures ids[|ids| - 1] == last
  {
    var i :| 0 <= i < |ids| && ids[i] == last;
    LastOfSorted(ids, i);
    LessIrreflexive(last);
    if Less(last, ids[|ids| - 1]) && Less(ids[|ids| - 1], last) {
      LessTransitive(last, ids[|ids| - 1], last);
    }
  }

  /** The list ends with the attempt of greatest ID. */
  lemma GreatestIsListed(db: DB, k: Key)
    requires SelfKeyed(db)
    ensures var list := ListAttempts(db, k.0, k.1);
            list != [] ==>
              var g := list[|list| - 1];
              && (k.0, g.id) in db.attempts && db.attempts[(k.0, g.id)] == g && ExecutionKeyOf(g) == k
              && forall id :: id in AttemptIds(db, k.0, k.1) ==> id == g.id || Less(id, g.id)
  {
    var ids := InOrder(AttemptIds(db, k.0, k.1));
    if ids != [] {
      ListedAttempts(db, k, ids[|ids| - 1]);
      forall id | id in AttemptIds(db, k.0, k.1)
        ensures id == ids[|ids| - 1] || Less(id, ids[|ids| - 1])
      {
        var i :| 0 <= i < |ids| && ids[i] == id;
        LastOfSorted(ids, i);
      }
    }
  }

  /** There is a list exactly where attempts have been counted. */
  lemma CountedAreListed(db: DB, k: Key)
    requires SelfKeyed(db) && AuditTrail(db) && k in db.executions
    ensures ListAttempts(db, k.0, k.1) == [] <==> db.executions[k].attemptCount == 0
  {
    GreatestIsListed(db, k);
    if db.executions[k].attemptCount > 0 {
      ListedAttempts(db, k, db.executions[k].lastAttemptID);
    }
  }

  /** A list of attempts that ends with the execution's last one. */
  ghost predicate EndsWith(e: Execution, last: Option<Attempt>, list: seq<Attempt>) {
    if e.attemptCount == 0 then list == [] else list != [] && last == Some(list[|list| - 1])
  }

  /** The attempts listed by ID end with the one the execution names as its last, if and only if
      that one has the greatest ID. */
  lemma ListEndsWithLastIff(db: DB, k: Key)
    requires SelfKeyed(db) && AuditTrail(db) && k in db.executions
    ensures EndsWith(db.executions[k], LastAttempt(db, k), ListAttempts(db, k.0, k.1)) <==> LastIsGreatest(db, k)
  {
    var ids, last := InOrder(AttemptIds(db, k.0, k.1)), db.executions[k].lastAttemptID;
    GreatestIsListed(db, k);
    CountedAreListed(db, k);
    if db.executions[k].attemptCount > 0 {
      ListedAttempts(db, k, last);
      if LastIsGreatest(db, k) {
        LargestIsLast(ids, last);
      }
    }
  }

  /** Of a final attempt, its place at the end of the list tells that it is the last. */
  lemma FinalIsLast(db: DB, k: Key)
    requires SelfKeyed(db) && AuditTrail(db) && OnlyLastSettles(db) && k in db.executions
    requires var list := ListAttempts(db, k.0, k.1); list != [] && !list[|list| - 1].outcome.OutcomeRetry?
    ensures LastIsGreatest(db, k)
  {
    var list := ListAttempts(db, k.0, k.1);
    var g := list[|list| - 1];
    GreatestIsListed(db, k);
    assert RetryUnlessLast(db.executions, db.attempts[(k.0, g.id)]);
    assert g.attemptNumber == db.executions[k].attemptCount;
    assert (k.0, g.id) == (k.0, db.executions[k].lastAttemptID);
  }

  // ------------------------------------------------------------------ what the decisions mean

  predicate HasNoAttempt(attempts: map<Key, Attempt>, k: Key) {
    forall a :: a in attempts ==> ExecutionKeyOf(attempts[a]) != k
  }

  /** The attempt of an execution with the highest number: the one recorded last. */
  predicate IsLastOf(attempts: map<Key, Attempt>, k: Key, a: Key) {
    && a in attempts && ExecutionKeyOf(attempts[a]) == k
    && forall b :: b in attempts && ExecutionKeyOf(attempts[b]) == k ==>
         attempts[b].attemptNumber <= attempts[a].attemptNumber
  }

  /** The one with the greatest ID. */
  predicate IsGreatestOf(attempts: map<Key, Attempt>, k: Key, a: Key) {
    && a in attempts && ExecutionKeyOf(attempts[a]) == k
    && forall b :: b in attempts && ExecutionKeyOf(attempts[b]) == k ==> b == a || Less(b.1, a.1)
  }

  /** A tick finalizes after a success or a terminal failure, retries once the time of a retry has
      come, and leaves the execution alone before that, or without an attempt. */
  ghost predicate TickGoesBy(decision: Decision, last: Attempt, now: Instant) {
    && (decision.DispatchFinalize? <==> last.outcome.OutcomeSuccess? || last.outcome.OutcomeTerminalFailure?)
    && (decision.DispatchRetry? <==> last.outcome.OutcomeRetry? && last.retryAt <= now)
    && (decision.Leave? <==> last.outcome.OutcomeRetry? && now < last.retryAt)
  }

  lemma TickGoesByTheLast(db: DB, k: Key, a: Key, now: Instant)
    requires AuditTrail(db) && Cached(db) && k in db.executions
    requires db.executions[k].attemptCount == 0 <==> db.executions[k].lastAttemptID == ""
    requires IsLastOf(db.attempts, k, a)
    ensures TickGoesBy(TickDecision(db.executions[k], now), db.attempts[a], now)
  {
    assert db.executions[k].attemptCount > 0;
    assert a == (k.0, db.executions[k].lastAttemptID);
    assert CachedAt(db.executions[k], LastAttempt(db, k));
  }

  lemma TickLeavesUntried(db: DB, k: Key, now: Instant)
    requires AuditTrail(db) && Cached(db) && k in db.executions && HasNoAttempt(db.attempts, k)
    requires db.executions[k].attemptCount == 0 <==> db.executions[k].lastAttemptID == ""
    ensures TickDecision(db.executions[k], now).Leave?
  {
    assert CachedAt(db.executions[k], LastAttempt(db, k));
  }

  /** Recovery sees a success, a terminal failure, a retry whose time has come, or one whose time has
      not. */
  ghost predicate RecoveryGoesBy(bucket: Option<Bucket>, greatest: Attempt, now: Instant) {
    && (bucket == Some(Success) <==> greatest.outcome.OutcomeSuccess?)
    && (bucket == Some(TerminalFailure) <==> greatest.outcome.OutcomeTerminalFailure?)
    && (bucket == Some(RetryElapsed) <==> greatest.outcome.OutcomeRetry? && greatest.retryAt <= now)
    && (bucket == Some(RetryPending) <==> greatest.outcome.OutcomeRetry? && now < greatest.retryAt)
    && bucket != Some(NoAttempts)
  }

  lemma RecoveryGoesByTheGreatest(db: DB, k: Key, a: Key, now: Instant)
    requires SelfKeyed(db) && IsGreatestOf(db.attempts, k, a)
    ensures RecoveryGoesBy(ClassifyOne(ListAttempts(db, k.0, k.1), now), db.attempts[a], now)
  {
    var list := ListAttempts(db, k.0, k.1);
    GreatestIsListed(db, k);
    ListedAttempts(db, k, a.1);
    var g := list[|list| - 1];
    assert a == (k.0, g.id) || (Less(g.id, a.1) && Less(a.1, g.id));
    if a != (k.0, g.id) {
      LessTransitive(g.id, a.1, g.id);
      LessIrreflexive(g.id);
    }
  }

  lemma RecoverySeesUntried(db: DB, k: Key, now: Instant)
    requires SelfKeyed(db) && HasNoAttempt(db.attempts, k)
    ensures ClassifyOne(ListAttempts(db, k.0, k.1), now) == Some(NoAttempts)
  {
    GreatestIsListed(db, k);
  }

  // ------------------------------------------------------------------ tick and recovery agree

  /** The tick finalizes what recovery would complete, retries what recovery sees as elapsed, and
      leaves the rest; and recovery does not meet an unknown outcome. */
  predicate Agree(e: Execution, list: seq<Attempt>, now: Instant) {
    var bucket, decision := ClassifyOne(list, now), TickDecision(e, now);
    && bucket.Some?
    && (decision.DispatchFinalize? <==> bucket.value.Success? || bucket.value.TerminalFailure?)
    && (decision.DispatchRetry? <==> bucket.value.RetryElapsed?)
    && (decision.Leave? <==> bucket.value.NoAttempts? || bucket.value.RetryPending?)
  }

  /** The attempt with the greatest ID, if there is one, has the last one's outcome and retry time. */
  ghost predicate GreatestReadsLikeLast(db: DB, k: Key) {
    var list, last := ListAttempts(db, k.0, k.1), LastAttempt(db, k);
    list != [] ==> last.Some? && ReadsLike(list[|list| - 1], last.value)
  }

  predicate ReadsLike(a: Attempt, b: Attempt) {
    a.outcome == b.outcome && (a.outcome.OutcomeRetry? ==> a.retryAt == b.retryAt)
  }

  /** Wherever the cache is right and only last attempts settle, tick and recovery agree at every
      time, if and only if the attempt with the greatest ID reads like the last. */
  lemma TickAgreesWithRecoveryIff(rules: Rules, db: DB, k: Key)
    requires Consistent(rules, db) && AuditTrail(db) && OnlyLastSettles(db) && Cached(db) && k in db.executions
    ensures (forall now :: Agree(db.executions[k], ListAttempts(db, k.0, k.1), now)) <==> GreatestReadsLikeLast(db, k)
    ensures LastIsGreatest(db, k) ==> GreatestReadsLikeLast(db, k)
  {
    var list := ListAttempts(db, k.0, k.1);
    assert CachedAt(db.executions[k], LastAttempt(db, k));
    CountedAreListed(db, k);
    ListEndsWithLastIff(db, k);
    if list != [] && !list[|list| - 1].outcome.OutcomeRetry? {
      FinalIsLast(db, k);
    }
    CachedAgreesIff(db.executions[k], LastAttempt(db, k), list);
  }

  lemma CachedAgreesIff(e: Execution, last: Option<Attempt>, list: seq<Attempt>)
    requires CachedAt(e, last) && (e.attemptCount == 0 <==> e.lastAttemptID == "")
             && (e.attemptCount == 0 <==> list == [])
    requires list != [] && !list[|list| - 1].outcome.OutcomeRetry? ==> last == Some(list[|list| - 1])
    ensures (forall now :: Agree(e, list, now)) <==> (list != [] ==> ReadsLike(list[|list| - 1], last.value))
  {
    if list != [] && forall now :: Agree(e, list, now) {
      var g := list[|list| - 1];
      assert Agree(e, list, g.retryAt);
      if e.lastRetryAt.Some? {
        assert Agree(e, list, e.lastRetryAt.value);
      }
    }
  }

  /** Whether the list ends as the cache promises decides what finalizing and recovering propose. */
  lemma CachedProposesIff(e: Execution, k: Key, last: Option<Attempt>, list: seq<Attempt>, now: Instant)
    requires CachedAt(e, last) && (e.attemptCount == 0 <==> e.lastAttemptID == "")
             && (e.attemptCount == 0 <==> list == [])
    requires list != [] && !list[|list| - 1].outcome.OutcomeRetry? ==> last == Some(list[|list| - 1])
    requires k == (e.tenantID, e.id) && TickDecision(e, now).DispatchFinalize?
    ensures ProposesIff(e, k, list, now, EndsWith(e, last, list))
  {
  }

  /** Finalizing proposes what recovery would, if and only if `ends`; otherwise recovery takes the
      execution for one to be retried, and at most adopts it. */
  ghost predicate ProposesIff(e: Execution, k: Key, list: seq<Attempt>, now: Instant, ends: bool) {
    var bucket, cmd := ClassifyOne(list, now), FinalizeCommand(k, list);
    && (cmd.Some? <==> ends)
    && (cmd.Some? ==> bucket.Some? && forall node :: RecoveryCommand(node, e, bucket.value)
                                                     == Some(CompleteExecution(cmd.value)))
    && (cmd.None? ==> bucket == Some(RetryElapsed) || bucket == Some(RetryPending))
  }

  /** Where the tick dispatches a finalize task, reading the attempts lets it propose a completion if
      and only if the last attempt has the greatest ID.  Then it is the completion recovery would
      propose; otherwise recovery takes the execution for one to be retried. */
  lemma FinalizeProposesIff(rules: Rules, db: DB, k: Key, now: Instant)
    requires Consistent(rules, db) && AuditTrail(db) && OnlyLastSettles(db) && Cached(db) && k in db.executions
    requires TickDecision(db.executions[k], now).DispatchFinalize?
    ensures ProposesIff(db.executions[k], k, ListAttempts(db, k.0, k.1), now, LastIsGreatest(db, k))
  {
    var list := ListAttempts(db, k.0, k.1);
    assert CachedAt(db.executions[k], LastAttempt(db, k));
    CountedAreListed(db, k);
    ListEndsWithLastIff(db, k);
    if list != [] && !list[|list| - 1].outcome.OutcomeRetry? {
      FinalIsLast(db, k);
    }
    CachedProposesIff(db.executions[k], k, LastAttempt(db, k), list, now);
  }
}
