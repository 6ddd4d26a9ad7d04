/**
 Recovery (`runRecover` and `adoptOrComplete` in `internal/scheduler/worker.go`), run against
 the stored tables by the sole proposer of execution commands: which executions it leaves in
 flight, and that running it again proposes nothing.
 */
module Recovery {
  import opened Base
  import opened Calendar
  import opened Domain
  import opened Fsm
  import opened Changes
  import opened Buckets
  import opened Indexes
  import opened Storage
  import opened BoltTx
  import opened SchedulerRules
  import Commands
  import opened StateMachines
  import opened Worker

  /** No attempts, or a last attempt that is to be retried. */
  ghost predicate Unsettled(attempts: seq<Attempt>) {
    attempts == [] || attempts[|attempts| - 1].outcome.OutcomeRetry?
  }

  ghost predicate RecoveredAt(db: DB, node: string, k: Key) {
    k in db.executions && db.executions[k].ownerNodeID == node && Unsettled(ListAttempts(db, k.0, k.1))
  }

  predicate InFlightAt(db: DB, k: Key) { k in db.executions && db.executions[k].status.InFlight? }

  /** Every execution in flight of these tenants is this node's, and waits for an attempt. */
  ghost predicate Recovered(db: DB, node: string, tenants: set<string>) {
    forall k :: InFlightAt(db, k) && k.0 in tenants ==> RecoveredAt(db, node, k)
  }

  /** Tenant IDs that keep keys unambiguous. */
  ghost predicate PlainIds(db: DB) {
    forall t :: t in db.tenants ==> ColonFree(t)
  }

  lemma FaithfulIsSelfKeyed(b: Image, db: DB)
    requires Represents(b, db)
    ensures SelfKeyed(db)
  {
  }

  // ------------------------------------------------------------------ one proposal

  /** Only one execution differs, and no attempt or tenant. */
  ghost predicate OnlyAt(before: DB, after: DB, k: Key) {
    && after.attempts == before.attempts && after.tenants == before.tenants
    && after.executions.Keys == before.executions.Keys
    && forall j :: j in before.executions && j != k ==> after.executions[j] == before.executions[j]
  }

  lemma AdoptIsOnlyAt(db: DB, cmd: AdoptExecutionCommand, now: Instant)
    requires SelfKeyed(db)
    ensures OnlyAt(db, After(RULES, db, LogEntry(AdoptExecution(cmd), now)), (cmd.tenantID, cmd.executionID))
  {
    AdoptIsChange(RULES, db, cmd);
  }

  lemma CompleteIsOnlyAt(db: DB, cmd: CompleteExecutionCommand, now: Instant)
    requires SelfKeyed(db)
    ensures OnlyAt(db, After(RULES, db, LogEntry(CompleteExecution(cmd), now)), (cmd.tenantID, cmd.executionID))
  {
    CompleteIsChange(RULES, db, cmd, now);
  }

  /** What recovery wants of an execution it has read. */
  ghost predicate Handled(db: DB, node: string, k: Key, bucket: Bucket) {
    if bucket.Success? || bucket.TerminalFailure? then !InFlightAt(db, k)
    else k in db.executions && db.executions[k].ownerNodeID == node
  }

  /** A reply recovery goes on from: accepted, or a conflict, which would mean that somebody
      else has dealt with the execution. */
  predicate GoesOn(reply: Result<Reply>) { reply.Ok? || reply.error.kind.Conflict? }

  /** What an entry proposed for an execution comes to. */
  ghost predicate GoesWell(db: DB, node: string, k: Key, bucket: Bucket, entry: LogEntry) {
    && OnlyAt(db, After(RULES, db, entry), k)
    && (GoesOn(Answer(Step(RULES, db, entry))) ==> Handled(After(RULES, db, entry), node, k, bucket))
  }

  lemma AdoptionGoesWell(db: DB, node: string, k: Key, bucket: Bucket, now: Instant)
    requires SelfKeyed(db) && InFlightAt(db, k) && !bucket.Success? && !bucket.TerminalFailure?
             && db.executions[k].ownerNodeID != node
    ensures GoesWell(db, node, k, bucket, LogEntry(RecoveryCommand(node, db.executions[k], bucket).value, now))
  {
    AdoptIsOnlyAt(db, AdoptExecutionCommand(k.0, k.1, db.executions[k].ownerNodeID, node), now);
  }

  lemma CompletionGoesWell(db: DB, node: string, k: Key, bucket: Bucket, now: Instant)
    requires SelfKeyed(db) && InFlightAt(db, k) && (bucket.Success? || bucket.TerminalFailure?)
    ensures GoesWell(db, node, k, bucket, LogEntry(RecoveryCommand(node, db.executions[k], bucket).value, now))
  {
    CompleteIsOnlyAt(db, CompleteAs(k, bucket.Success?), now);
  }

  /** A proposal from an accurate reading is never a conflict, and does what it is for. */
  lemma ProposalHandles(db: DB, node: string, k: Key, bucket: Bucket, now: Instant)
    requires SelfKeyed(db) && InFlightAt(db, k) && RecoveryCommand(node, db.executions[k], bucket).Some?
    ensures GoesWell(db, node, k, bucket, LogEntry(RecoveryCommand(node, db.executions[k], bucket).value, now))
  {
    if bucket.Success? || bucket.TerminalFailure? {
      CompletionGoesWell(db, node, k, bucket, now);
    } else {
      AdoptionGoesWell(db, node, k, bucket, now);
    }
  }

  lemma ProposalIsAdmissible(b: Image, db: DB, node: string, k: Key, bucket: Bucket)
    requires Represents(b, db) && InFlightAt(db, k) && RecoveryCommand(node, db.executions[k], bucket).Some?
    ensures Commands.Admissible(db, RecoveryCommand(node, db.executions[k], bucket).value)
  {
    Commands.StoredExecution(b, db, k);
    PlainTenantIsAdmissible(db, node, db.executions[k], bucket);
  }

  lemma PlainTenantIsAdmissible(db: DB, node: string, e: Execution, bucket: Bucket)
    requires ColonFree(e.tenantID) && RecoveryCommand(node, e, bucket).Some?
    ensures Commands.Admissible(db, RecoveryCommand(node, e, bucket).value)
  {
  }

  // ------------------------------------------------------------------ what the proposals did

  ghost predicate Leads(before: DB, entry: LogEntry, after: DB) { after == After(RULES, before, entry) }

  ghost predicate IsChain(states: seq<DB>, start: DB, log: seq<LogEntry>, db: DB) {
    && |states| == |log| + 1 && states[0] == start && states[|log|] == db
    && forall i :: 0 <= i < |log| ==> Leads(states[i], log[i], states[i + 1])
  }

  /** The entries of the log lead from one state of the tables to the other. */
  ghost predicate Chained(start: DB, log: seq<LogEntry>, db: DB) {
    exists states :: IsChain(states, start, log, db)
  }

  lemma NoEntries(start: DB)
    ensures Chained(start, [], start)
    ensures forall db :: Chained(start, [], db) ==> db == start
  {
    assert IsChain([start], start, [], start);
  }

  lemma OneEntry(start: DB, entry: LogEntry)
    ensures Chained(start, [entry], After(RULES, start, entry))
  {
    assert IsChain([start, After(RULES, start, entry)], start, [entry], After(RULES, start, entry));
  }

  lemma MoreEntries(start: DB, log: seq<LogEntry>, mid: DB, more: seq<LogEntry>, db: DB)
    requires Chained(start, log, mid) && Chained(mid, more, db)
    ensures Chained(start, log + more, db)
  {
    var first :| IsChain(first, start, log, mid);
    var second :| IsChain(second, mid, more, db);
    var both, all := first + second[1..], log + more;
    forall i | 0 <= i < |all|
      ensures Leads(both[i], all[i], both[i + 1])
    {
      LeadsOn(first, second, start, log, mid, more, db, i);
    }
    assert IsChain(both, start, all, db);
  }

  lemma LeadsOn(first: seq<DB>, second: seq<DB>, start: DB, log: seq<LogEntry>, mid: DB, more: seq<LogEntry>, db: DB,
                i: nat)
    requires IsChain(first, start, log, mid) && IsChain(second, mid, more, db) && i < |log + more|
    ensures Leads((first + second[1..])[i], (log + more)[i], (first + second[1..])[i + 1])
  {
    if i < |log| {
      assert Leads(first[i], log[i], first[i + 1]);
    } else {
      assert Leads(second[i - |log|], more[i - |log|], second[i - |log| + 1]);
    }
  }

  lemma {:induction false} ChainIsRun(states: seq<DB>, start: DB, log: seq<LogEntry>, db: DB)
    requires IsChain(states, start, log, db)
    ensures db == Run(RULES, start, log)
  {
    if log != [] {
      var n := |log| - 1;
      ChainIsRun(states[..n + 1], start, log[..n], states[n]);
      assert Leads(states[n], log[n], states[n + 1]);
    }
  }

  /** Adopts or completes one execution; a proposal may fail to go through (`lost`). */
  method AdoptOrComplete(sm: StateMachine, node: string, exec: Execution, bucket: Bucket, now: Instant, lost: bool)
    returns (ok: bool, log: seq<LogEntry>)
    requires Ordered(sm.tx.buckets) && sm.tx.Faithful()
    requires var k := (exec.tenantID, exec.id); InFlightAt(sm.tx.db, k) && sm.tx.db.executions[k] == exec
    modifies sm.tx
    ensures Ordered(sm.tx.buckets) && sm.tx.Faithful()
    ensures OnlyAt(old(sm.tx.db), sm.tx.db, (exec.tenantID, exec.id)) && Chained(old(sm.tx.db), log, sm.tx.db)
    ensures ok ==> Handled(sm.tx.db, node, (exec.tenantID, exec.id), bucket)
    ensures RecoveryCommand(node, exec, bucket).None? ==> ok && log == []
  {
    ghost var before, k := sm.tx.db, (exec.tenantID, exec.id);
    NoEntries(before);
    var command := RecoveryCommand(node, exec, bucket);
    if command.None? {
      return true, [];
    }
    if lost {
      return false, [];
    }
    var entry := LogEntry(command.value, now);
    FaithfulIsSelfKeyed(sm.tx.buckets, before);
    ProposalIsAdmissible(sm.tx.buckets, before, node, k, bucket);
    ProposalHandles(before, node, k, bucket, now);
    OneEntry(before, entry);
    var reply := sm.Apply(entry);
    ok, log := GoesOn(reply), [entry];
  }

  // ------------------------------------------------------------------ one execution

  /** Either finished, or this node's and waiting for an attempt. */
  ghost predicate Resolved(db: DB, node: string, k: Key) {
    InFlightAt(db, k) ==> RecoveredAt(db, node, k)
  }

  lemma HandledIsResolved(before: DB, after: DB, node: string, k: Key, bucket: Bucket, now: Instant)
    requires OnlyAt(before, after, k) && Handled(after, node, k, bucket)
    requires ClassifyOne(ListAttempts(before, k.0, k.1), now) == Some(bucket)
    ensures Resolved(after, node, k)
  {
    assert AttemptIds(after, k.0, k.1) == AttemptIds(before, k.0, k.1);
    assert ListAttempts(after, k.0, k.1) == ListAttempts(before, k.0, k.1);
  }

  lemma RecoveredNeedsNothing(db: DB, node: string, k: Key, now: Instant)
    requires RecoveredAt(db, node, k)
    ensures var bucket := ClassifyOne(ListAttempts(db, k.0, k.1), now);
            bucket.Some? && RecoveryCommand(node, db.executions[k], bucket.value).None?
  {
  }

  /** What a run of recovery meets: when an execution is classified, whose proposal does not go
      through, and at which checks the context is found canceled; the check before a tenant is
      named by the tenant and no ID. */
  datatype Circumstances = Circumstances(clock: Key -> Instant, lost: set<Key>, canceled: set<Key>)

  /** Reads the attempts of one listed execution and acts on them. */
  method RecoverOne(sm: StateMachine, node: string, exec: Execution, env: Circumstances)
    returns (ok: bool, log: seq<LogEntry>)
    requires Ordered(sm.tx.buckets) && sm.tx.Faithful()
    requires var k := (exec.tenantID, exec.id); InFlightAt(sm.tx.db, k) && sm.tx.db.executions[k] == exec
    modifies sm.tx
    ensures Ordered(sm.tx.buckets) && sm.tx.Faithful()
    ensures OnlyAt(old(sm.tx.db), sm.tx.db, (exec.tenantID, exec.id)) && Chained(old(sm.tx.db), log, sm.tx.db)
    ensures ok ==> Resolved(sm.tx.db, node, (exec.tenantID, exec.id))
    ensures RecoveredAt(old(sm.tx.db), node, (exec.tenantID, exec.id)) ==> log == [] && (env.canceled == {} ==> ok)
  {
    ghost var before := sm.tx.db;
    var k := (exec.tenantID, exec.id);
    var now := env.clock(k);
    NoEntries(before);
    Commands.StoredExecution(sm.tx.buckets, before, k);
    if k in env.canceled {
      return false, [];
    }
    var attempts := sm.tx.ListAttemptsByExecution(exec.tenantID, exec.id);
    var bucket := ClassifyOne(attempts.value, now);
    if RecoveredAt(before, node, k) { RecoveredNeedsNothing(before, node, k, now); }
    if bucket.None? {
      return false, [];
    }
    ok, log := AdoptOrComplete(sm, node, exec, bucket.value, now, k in env.lost);
    if ok { HandledIsResolved(before, sm.tx.db, node, k, bucket.value, now); }
  }

  // ------------------------------------------------------------------ one tenant

  lemma ListedInFlight(db: DB, t: string)
    requires SelfKeyed(db)
    ensures var list := ListByStatus(db, t, InFlight);
            && (forall i :: 0 <= i < |list| ==>
                  list[i].tenantID == t && InFlightAt(db, (t, list[i].id)) && db.executions[(t, list[i].id)] == list[i])
            && (forall i, j :: 0 <= i < j < |list| ==> list[i].id != list[j].id)
            && (forall k :: InFlightAt(db, k) && k.0 == t ==> Listed(list, 0, db.executions[k]))
  {
    var ids, list := InOrder(IdsByStatus(db, t, InFlight)), ListByStatus(db, t, InFlight);
    forall i | 0 <= i < |list|
      ensures list[i].tenantID == t && list[i].id == ids[i] && InFlightAt(db, (t, ids[i]))
              && db.executions[(t, ids[i])] == list[i]
    {
      assert ids[i] in ids;
    }
    forall i, j | 0 <= i < j < |list|
      ensures list[i].id != list[j].id
    {
      if ids[i] == ids[j] { SortedDistinct(ids, i, j); }
    }
    forall k | InFlightAt(db, k) && k.0 == t
      ensures Listed(list, 0, db.executions[k])
    {
      assert k.1 in IdsByStatus(db, t, InFlight);
      var i :| 0 <= i < |ids| && ids[i] == k.1;
      assert list[i] == db.executions[k];
    }
  }

  ghost predicate Listed(list: seq<Execution>, from: nat, e: Execution) {
    exists i :: from <= i < |list| && list[i] == e
  }

  /** The list still describes what is ahead, and what is behind is resolved. */
  ghost predicate Ahead(db: DB, node: string, t: string, list: seq<Execution>, n: nat) {
    && (forall i :: n <= i < |list| ==>
          list[i].tenantID == t && InFlightAt(db, (t, list[i].id)) && db.executions[(t, list[i].id)] == list[i])
    && (forall k :: InFlightAt(db, k) && k.0 == t ==> RecoveredAt(db, node, k) || Listed(list, n, db.executions[k]))
  }

  ghost predicate OnlyTenant(before: DB, after: DB, t: string) {
    && after.attempts == before.attempts && after.tenants == before.tenants
    && after.executions.Keys == before.executions.Keys
    && forall j :: j in before.executions && j.0 != t ==> after.executions[j] == before.executions[j]
  }

  /** What is known of an execution does not change with another one. */
  lemma RecoveredElsewhere(before: DB, after: DB, node: string, k: Key)
    requires after.attempts == before.attempts && k in before.executions && k in after.executions
    requires after.executions[k] == before.executions[k]
    ensures RecoveredAt(after, node, k) <==> RecoveredAt(before, node, k)
  {
    assert AttemptIds(after, k.0, k.1) == AttemptIds(before, k.0, k.1);
    assert ListAttempts(after, k.0, k.1) == ListAttempts(before, k.0, k.1);
  }

  lemma OneFurther(before: DB, after: DB, node: string, t: string, list: seq<Execution>, n: nat)
    requires SelfKeyed(before) && n < |list| && Ahead(before, node, t, list, n)
    requires forall i, j :: 0 <= i < j < |list| ==> list[i].id != list[j].id
    requires OnlyAt(before, after, (t, list[n].id)) && Resolved(after, node, (t, list[n].id))
    ensures Ahead(after, node, t, list, n + 1)
  {
    forall k | InFlightAt(after, k) && k.0 == t
      ensures RecoveredAt(after, node, k) || Listed(list, n + 1, after.executions[k])
    {
      if k != (t, list[n].id) {
        RecoveredElsewhere(before, after, node, k);
        assert RecoveredAt(before, node, k) || Listed(list, n, before.executions[k]);
      }
    }
  }

  lemma OnlyAtIsOnlyTenant(start: DB, before: DB, after: DB, k: Key)
    requires OnlyTenant(start, before, k.0) && OnlyAt(before, after, k)
    ensures OnlyTenant(start, after, k.0)
  {
  }

  /** So far: only this tenant's executions changed, as the log says, and not at all if there
      was nothing to recover. */
  ghost predicate SoFar(start: DB, db: DB, node: string, t: string, log: seq<LogEntry>) {
    && OnlyTenant(start, db, t) && Chained(start, log, db)
    && (Recovered(start, node, {t}) ==> log == [])
  }

  lemma OneMore(start: DB, before: DB, after: DB, node: string, k: Key, log: seq<LogEntry>, more: seq<LogEntry>)
    requires SoFar(start, before, node, k.0, log) && OnlyAt(before, after, k) && Chained(before, more, after)
    requires InFlightAt(before, k) && (RecoveredAt(before, node, k) ==> more == [])
    ensures SoFar(start, after, node, k.0, log + more)
  {
    MoreEntries(start, log, before, more, after);
    OnlyAtIsOnlyTenant(start, before, after, k);
    NoEntries(start);
  }

  ghost predicate Distinct(list: seq<Execution>) {
    forall i, j :: 0 <= i < j < |list| ==> list[i].id != list[j].id
  }

  lemma ListIsAhead(b: Image, db: DB, node: string, t: string)
    requires Represents(b, db)
    ensures var list := ListByStatus(db, t, InFlight); Distinct(list) && Ahead(db, node, t, list, 0)
    ensures SoFar(db, db, node, t, [])
  {
    FaithfulIsSelfKeyed(b, db);
    ListedInFlight(db, t);
    NoEntries(db);
  }

  lemma HeadIsReady(start: DB, db: DB, node: string, t: string, list: seq<Execution>, n: nat)
    requires OnlyTenant(start, db, t) && Ahead(db, node, t, list, n) && n < |list|
    ensures list[n].tenantID == t && InFlightAt(db, (t, list[n].id)) && db.executions[(t, list[n].id)] == list[n]
  {
  }

  lemma NothingAhead(start: DB, db: DB, node: string, t: string, list: seq<Execution>, log: seq<LogEntry>)
    requires Ahead(db, node, t, list, |list|)
    ensures Recovered(db, node, {t})
  {
  }

  /** The executions in flight of one tenant, listed once and taken in turn. */
  method RecoverTenant(sm: StateMachine, node: string, t: string, env: Circumstances)
    returns (ok: bool, log: seq<LogEntry>)
    requires Ordered(sm.tx.buckets) && sm.tx.Faithful() && PlainIds(sm.tx.db) && ColonFree(t)
    modifies sm.tx
    ensures Ordered(sm.tx.buckets) && sm.tx.Faithful()
    ensures SoFar(old(sm.tx.db), sm.tx.db, node, t, log)
    ensures ok ==> Recovered(sm.tx.db, node, {t})
    ensures Recovered(old(sm.tx.db), node, {t}) && env.canceled == {} ==> ok
  {
    ghost var start := sm.tx.db;
    ListIsAhead(sm.tx.buckets, start, node, t);
    if (t, "") in env.canceled {
      return false, [];
    }
    var listed := sm.tx.ListExecutionsByStatus(t, InFlight);
    var list := listed.value;
    log := [];
    var i := 0;
    while i < |list|
      invariant 0 <= i <= |list| && Ordered(sm.tx.buckets) && sm.tx.Faithful()
      invariant SoFar(start, sm.tx.db, node, t, log) && Ahead(sm.tx.db, node, t, list, i)
    {
      ghost var before := sm.tx.db;
      FaithfulIsSelfKeyed(sm.tx.buckets, before);
      HeadIsReady(start, before, node, t, list, i);
      var k := (t, list[i].id);
      if Recovered(start, node, {t}) { CalmSoFar(start, before, node, k, log); }
      var done, more := RecoverOne(sm, node, list[i], env);
      OneMore(start, before, sm.tx.db, node, k, log, more);
      log := log + more;
      if !done {
        return false, log;
      }
      OneFurther(before, sm.tx.db, node, t, list, i);
      i := i + 1;
    }
    NothingAhead(start, sm.tx.db, node, t, list, log);
    ok := true;
  }

  lemma CalmSoFar(start: DB, db: DB, node: string, k: Key, log: seq<LogEntry>)
    requires Recovered(start, node, {k.0}) && SoFar(start, db, node, k.0, log) && InFlightAt(db, k)
    ensures RecoveredAt(db, node, k)
  {
    NoEntries(start);
  }

  // ------------------------------------------------------------------ every tenant

  ghost function TenantIds(tenants: seq<Tenant>): set<string> { FirstIds(tenants, |tenants|) }

  /** The IDs of the first `n` tenants. */
  ghost function FirstIds(tenants: seq<Tenant>, n: nat): set<string>
    requires n <= |tenants|
  {
    set i | 0 <= i < n :: tenants[i].id
  }

  lemma TenantsListed(rows: map<string, Tenant>)
    requires forall t :: t in rows ==> rows[t].id == t
    ensures TenantIds(TenantRows(rows, InOrder(rows.Keys))) == rows.Keys
  {
    var ids := InOrder(rows.Keys);
    var tenants := TenantRows(rows, ids);
    forall i | 0 <= i < |tenants|
      ensures tenants[i].id == ids[i] && ids[i] in rows
    {
      assert ids[i] in ids;
    }
    forall t | t in rows
      ensures t in TenantIds(tenants)
    {
      var i :| 0 <= i < |ids| && ids[i] == t;
      assert tenants[i].id == t;
    }
  }

  /** Recovering one tenant leaves the others recovered. */
  lemma OthersStayRecovered(before: DB, after: DB, node: string, done: set<string>, t: string)
    requires Recovered(before, node, done) && OnlyTenant(before, after, t) && Recovered(after, node, {t})
    ensures Recovered(after, node, done + {t})
  {
    forall k | InFlightAt(after, k) && k.0 in done + {t}
      ensures RecoveredAt(after, node, k)
    {
      if k.0 != t {
        RecoveredElsewhere(before, after, node, k);
      }
    }
  }

  ghost predicate SameIds(before: DB, after: DB) {
    after.tenants == before.tenants && after.executions.Keys == before.executions.Keys
  }

  /** So far, over several tenants. */
  ghost predicate RanSoFar(start: DB, db: DB, node: string, log: seq<LogEntry>) {
    && SameIds(start, db) && Chained(start, log, db)
    && (Recovered(start, node, start.tenants.Keys) ==> log == [])
  }

  lemma OneTenantMore(start: DB, before: DB, after: DB, node: string, t: string, log: seq<LogEntry>,
                      more: seq<LogEntry>)
    requires RanSoFar(start, before, node, log) && SoFar(before, after, node, t, more) && t in start.tenants
    ensures RanSoFar(start, after, node, log + more)
    ensures Recovered(start, node, start.tenants.Keys) ==> Recovered(before, node, {t})
  {
    MoreEntries(start, log, before, more, after);
    NoEntries(start);
  }

  /** The outer loop, over the tenants as listed. */
  method RecoverTenants(sm: StateMachine, node: string, tenants: seq<Tenant>, env: Circumstances)
    returns (ok: bool, log: seq<LogEntry>)
    requires Ordered(sm.tx.buckets) && sm.tx.Faithful() && PlainIds(sm.tx.db)
             && TenantIds(tenants) == sm.tx.db.tenants.Keys
    modifies sm.tx
    ensures Ordered(sm.tx.buckets) && sm.tx.Faithful() && RanSoFar(old(sm.tx.db), sm.tx.db, node, log)
    ensures ok ==> Recovered(sm.tx.db, node, TenantIds(tenants))
    ensures Recovered(old(sm.tx.db), node, old(sm.tx.db).tenants.Keys) && env.canceled == {} ==> ok
  {
    ghost var start := sm.tx.db;
    NothingRanYet(start, node);
    log := [];
    var i := 0;
    while i < |tenants|
      invariant 0 <= i <= |tenants| && Ordered(sm.tx.buckets) && sm.tx.Faithful()
      invariant RanSoFar(start, sm.tx.db, node, log)
      invariant Recovered(sm.tx.db, node, FirstIds(tenants, i))
    {
      ok, log := RecoverNext(sm, node, tenants, i, env, start, log);
      if !ok {
        return;
      }
      i := i + 1;
    }
    ok := true;
  }

  /** One turn of the outer loop. */
  method RecoverNext(sm: StateMachine, node: string, tenants: seq<Tenant>, i: nat, env: Circumstances,
                     ghost start: DB, sofar: seq<LogEntry>)
    returns (ok: bool, log: seq<LogEntry>)
    requires Ordered(sm.tx.buckets) && sm.tx.Faithful() && i < |tenants|
    requires PlainIds(start) && TenantIds(tenants) == start.tenants.Keys
    requires RanSoFar(start, sm.tx.db, node, sofar) && Recovered(sm.tx.db, node, FirstIds(tenants, i))
    modifies sm.tx
    ensures Ordered(sm.tx.buckets) && sm.tx.Faithful() && RanSoFar(start, sm.tx.db, node, log)
    ensures ok ==> Recovered(sm.tx.db, node, FirstIds(tenants, i + 1))
    ensures Recovered(start, node, start.tenants.Keys) && env.canceled == {} ==> ok
  {
    ghost var before := sm.tx.db;
    var t := tenants[i].id;
    assert t in TenantIds(tenants);
    IdsStayPlain(start, before);
    var more: seq<LogEntry>;
    ok, more := RecoverTenant(sm, node, t, env);
    OneTenantMore(start, before, sm.tx.db, node, t, sofar, more);
    log := sofar + more;
    if ok { OneTenantDone(before, sm.tx.db, node, tenants, i, more); }
  }

  /** When recovery reports success, every execution in flight of every tenant belongs to this
      node and has no attempt or a last attempt to be retried; where that is already so,
      recovery proposes nothing, and succeeds unless its context is canceled. */
  method RunRecover(sm: StateMachine, node: string, env: Circumstances)
    returns (ok: bool, log: seq<LogEntry>)
    requires Ordered(sm.tx.buckets) && sm.tx.Faithful() && PlainIds(sm.tx.db)
    modifies sm.tx
    ensures Ordered(sm.tx.buckets) && sm.tx.Faithful() && PlainIds(sm.tx.db)
    ensures sm.tx.db == Run(RULES, old(sm.tx.db), log)
    ensures ok ==> Recovered(sm.tx.db, node, sm.tx.db.tenants.Keys)
    ensures Recovered(old(sm.tx.db), node, old(sm.tx.db).tenants.Keys) ==> log == [] && (env.canceled == {} ==> ok)
  {
    ghost var start := sm.tx.db;
    FaithfulIsSelfKeyed(sm.tx.buckets, start);
    TenantsListed(start.tenants);
    var tenants := sm.tx.ListTenants();
    ok, log := RecoverTenants(sm, node, tenants, env);
    IdsStayPlain(start, sm.tx.db);
    ghost var states :| IsChain(states, start, log, sm.tx.db);
    ChainIsRun(states, start, log, sm.tx.db);
  }

  lemma NothingRanYet(db: DB, node: string)
    ensures RanSoFar(db, db, node, []) && Recovered(db, node, {})
  {
    NoEntries(db);
  }

  lemma IdsStayPlain(start: DB, db: DB)
    requires PlainIds(start) && SameIds(start, db)
    ensures PlainIds(db)
  {
  }

  lemma OneTenantFurther(tenants: seq<Tenant>, i: nat)
    requires i < |tenants|
    ensures FirstIds(tenants, i + 1) == FirstIds(tenants, i) + {tenants[i].id}
  {
  }

  lemma OneTenantDone(before: DB, after: DB, node: string, tenants: seq<Tenant>, i: nat, more: seq<LogEntry>)
    requires i < |tenants| && Recovered(before, node, FirstIds(tenants, i))
    requires SoFar(before, after, node, tenants[i].id, more) && Recovered(after, node, {tenants[i].id})
    ensures Recovered(after, node, FirstIds(tenants, i + 1))
  {
    OthersStayRecovered(before, after, node, FirstIds(tenants, i), tenants[i].id);
    OneTenantFurther(tenants, i);
  }

  /** Running recovery twice, each time under circumstances of its own: after a first run that
      succeeds, the second has nothing to propose, and succeeds unless it is canceled. */
  method RecoverTwice(sm: StateMachine, node: string, env: Circumstances, later: Circumstances)
    returns (ok: bool, again: bool, second: seq<LogEntry>)
    requires Ordered(sm.tx.buckets) && sm.tx.Faithful() && PlainIds(sm.tx.db)
    modifies sm.tx
    ensures ok ==> second == [] && (later.canceled == {} ==> again)
  {
    var first: seq<LogEntry>;
    ok, first := RunRecover(sm, node, env);
    again, second := RunRecover(sm, node, later);
  }
}
