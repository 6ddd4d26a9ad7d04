/**
 The bbolt store (`internal/storage/storage.go`): primary buckets, secondary indexes, and the
 list and page methods over them, against the tables they represent.
 */
module Storage {
  import opened Base
  import opened Domain
  import opened Fsm
  import opened Buckets
  import opened Pages
  import opened Indexes

  function StatusText(s: ExecutionStatus): (text: string)
    ensures ColonFree(text)
  {
    match s
    case StatusMissing => ""
    case Pending => "pending"
    case InFlight => "in_flight"
    case Succeeded => "succeeded"
    case FailedTerminal => "failed_terminal"
    case FailedMaxRetries => "failed_max_retries"
  }

  function ScheduleStatusText(s: ScheduleStatus): (text: string)
    ensures ColonFree(text)
  {
    match s
    case Active => "active"
    case Paused => "paused"
    case Canceled => "canceled"
    case Completed => "completed"
  }

  lemma StatusTextInjective(a: ExecutionStatus, b: ExecutionStatus)
    requires StatusText(a) == StatusText(b)
    ensures a == b
  {
    assert |StatusText(a)| == |StatusText(b)|;
    assert |StatusText(a)| > 0 ==> StatusText(a)[0] == StatusText(b)[0];
  }

  lemma ScheduleStatusTextInjective(a: ScheduleStatus, b: ScheduleStatus)
    requires ScheduleStatusText(a) == ScheduleStatusText(b)
    ensures a == b
  {
    assert |ScheduleStatusText(a)| == |ScheduleStatusText(b)|;
    assert ScheduleStatusText(a)[0] == ScheduleStatusText(b)[0];
    assert ScheduleStatusText(a)[1] == ScheduleStatusText(b)[1];
  }

  /** The contents of the eight buckets; an index bucket is its sorted keys, and `tenantKeys` is
      the key order of `tenants`, which is listed without an index. */
  datatype Image = Image(
    tenants: map<string, Tenant>,
    tenantKeys: seq<string>,
    schedules: map<string, Schedule>,
    executions: map<string, Execution>,
    attempts: map<string, Attempt>,
    schedulesByStatus: seq<string>,
    executionsByStatus: seq<string>,
    executionsBySchedule: seq<string>,
    attemptsByExecution: seq<string>)

  /** bbolt keeps every bucket in key order. */
  ghost predicate Ordered(b: Image) {
    && Sorted(b.tenantKeys) && Sorted(b.schedulesByStatus) && Sorted(b.executionsByStatus)
    && Sorted(b.executionsBySchedule) && Sorted(b.attemptsByExecution)
  }

  // ------------------------------------------------------------------ what the indexes should hold

  ghost function SchedulesByStatus(rows: map<Key, Schedule>): map<Key, Entry> {
    map p | p in rows :: Entry(p.0, ScheduleStatusText(rows[p].status), p.1)
  }

  ghost function ExecutionsByStatus(rows: map<Key, Execution>): map<Key, Entry> {
    map p | p in rows :: Entry(p.0, StatusText(rows[p].status), p.1)
  }

  ghost function ExecutionsBySchedule(rows: map<Key, Execution>): map<Key, Entry> {
    map p | p in rows :: Entry(p.0, rows[p].scheduleID, p.1)
  }

  ghost function AttemptsByExecution(rows: map<Key, Attempt>): map<Key, Entry> {
    map p | p in rows :: Entry(p.0, rows[p].executionID, p.1)
  }

  ghost predicate TenantsFit(bucket: map<string, Tenant>, keys: seq<string>, rows: map<string, Tenant>) {
    && bucket == rows && Sorted(keys) && (forall t :: t in keys <==> t in rows)
    && (forall t :: t in rows ==> rows[t].id == t)
  }

  ghost predicate SchedulesFit(bucket: map<string, Schedule>, byStatus: seq<string>, rows: map<Key, Schedule>) {
    && RowsAgree(bucket, rows) && (forall p :: p in rows ==> (rows[p].tenantID, rows[p].id) == p)
    && IsImage(byStatus, SchedulesByStatus(rows))
  }

  /** Executions stand under their own tenant and ID, and IDs have no colon. */
  ghost predicate OwnIds(rows: map<Key, Execution>) {
    forall p :: p in rows ==> (rows[p].tenantID, rows[p].id) == p && ColonFree(p.1)
  }

  ghost predicate ExecutionsFit(bucket: map<string, Execution>, byStatus: seq<string>, bySchedule: seq<string>,
                                rows: map<Key, Execution>) {
    && RowsAgree(bucket, rows) && OwnIds(rows)
    && IsImage(byStatus, ExecutionsByStatus(rows)) && IsImage(bySchedule, ExecutionsBySchedule(rows))
  }

  ghost predicate AttemptsFit(bucket: map<string, Attempt>, byExecution: seq<string>, rows: map<Key, Attempt>) {
    && RowsAgree(bucket, rows) && (forall p :: p in rows ==> (rows[p].tenantID, rows[p].id) == p)
    && IsImage(byExecution, AttemptsByExecution(rows)) && PlainFields(AttemptsByExecution(rows))
  }

  /** The buckets represent the tables: the same rows, and every index exactly their image. */
  ghost predicate Represents(b: Image, db: DB) {
    && TenantsFit(b.tenants, b.tenantKeys, db.tenants)
    && SchedulesFit(b.schedules, b.schedulesByStatus, db.schedules)
    && ExecutionsFit(b.executions, b.executionsByStatus, b.executionsBySchedule, db.executions)
    && AttemptsFit(b.attempts, b.attemptsByExecution, db.attempts)
  }

  // ------------------------------------------------------------------ listings of the tables

  lemma SortedSeqExists(s: set<string>) returns (r: seq<string>)
    ensures Sorted(r) && forall x :: x in r <==> x in s
  {
    if s == {} {
      r := [];
    } else {
      var x :| x in s;
      r := SortedSeqExists(s - {x});
      r := Insert(r, x);
    }
  }

  lemma SortedSeqIsThere(s: set<string>)
    ensures exists r :: Sorted(r) && forall x :: x in r <==> x in s
  {
    var r := SortedSeqExists(s);
  }

  /** A set of IDs in increasing order. */
  ghost function InOrder(s: set<string>): (r: seq<string>)
    ensures Sorted(r) && forall x :: x in r <==> x in s
  {
    SortedSeqIsThere(s);
    var r :| Sorted(r) && forall x :: x in r <==> x in s;
    r
  }

  ghost function IdsByStatus(db: DB, t: string, status: ExecutionStatus): set<string> {
    set p | p in db.executions && p.0 == t && db.executions[p].status == status :: p.1
  }

  ghost function IdsBySchedule(db: DB, t: string, scheduleID: string): set<string> {
    set p | p in db.executions && p.0 == t && db.executions[p].scheduleID == scheduleID :: p.1
  }

  ghost function AttemptIds(db: DB, t: string, executionID: string): set<string> {
    set p | p in db.attempts && p.0 == t && db.attempts[p].executionID == executionID :: p.1
  }

  ghost function ActiveIds(db: DB, t: string): set<string> {
    set p | p in db.schedules && p.0 == t && db.schedules[p].status.Active? :: p.1
  }

  /** The rows of one tenant with the given IDs, in that order. */
  ghost function RowsOf<V>(rows: map<Key, V>, t: string, ids: seq<string>): (r: seq<V>)
    requires forall id :: id in ids ==> (t, id) in rows
    ensures |r| == |ids|
  {
    seq(|ids|, i requires 0 <= i < |ids| => assert ids[i] in ids; rows[(t, ids[i])])
  }

  ghost function ListByStatus(db: DB, t: string, status: ExecutionStatus): seq<Execution> {
    RowsOf(db.executions, t, InOrder(IdsByStatus(db, t, status)))
  }

  ghost function ListBySchedule(db: DB, t: string, scheduleID: string): seq<Execution> {
    RowsOf(db.executions, t, InOrder(IdsBySchedule(db, t, scheduleID)))
  }

  ghost function ListAttempts(db: DB, t: string, executionID: string): seq<Attempt> {
    RowsOf(db.attempts, t, InOrder(AttemptIds(db, t, executionID)))
  }

  // ------------------------------------------------------------------ writing one row

  function Lookup<V>(bucket: map<string, V>, p: Key): Option<V> {
    if RowKey(p) in bucket then Some(bucket[RowKey(p)]) else None
  }

  function ScheduleEntryKey(s: Schedule): string { IndexKey(s.tenantID, ScheduleStatusText(s.status), s.id) }

  function ExecutionStatusKey(e: Execution): string { IndexKey(e.tenantID, StatusText(e.status), e.id) }

  function ExecutionScheduleKey(e: Execution): string { IndexKey(e.tenantID, e.scheduleID, e.id) }

  function AttemptExecutionKey(a: Attempt): string { IndexKey(a.tenantID, a.executionID, a.id) }

  function PutScheduleImage(b: Image, s: Schedule): (r: Image)
    requires Ordered(b)
    ensures Ordered(r)
  {
    var p := (s.tenantID, s.id);
    var previous := Lookup(b.schedules, p);
    b.(schedules := b.schedules[RowKey(p) := s],
       schedulesByStatus := Reindex(b.schedulesByStatus,
                                    if previous.Some? then [ScheduleEntryKey(previous.value)] else [],
                                    ScheduleEntryKey(s)))
  }

  function PutExecutionImage(b: Image, e: Execution): (r: Image)
    requires Ordered(b)
    ensures Ordered(r)
  {
    var p := (e.tenantID, e.id);
    var previous := Lookup(b.executions, p);
    b.(executions := b.executions[RowKey(p) := e],
       executionsByStatus := Reindex(b.executionsByStatus,
                                     if previous.Some? then [ExecutionStatusKey(previous.value)] else [],
                                     ExecutionStatusKey(e)),
       executionsBySchedule := Insert(b.executionsBySchedule, ExecutionScheduleKey(e)))
  }

  function PutAttemptImage(b: Image, a: Attempt): (r: Image)
    requires Ordered(b)
    ensures Ordered(r)
  {
    b.(attempts := b.attempts[RowKey((a.tenantID, a.id)) := a],
       attemptsByExecution := Insert(b.attemptsByExecution, AttemptExecutionKey(a)))
  }

  function PutTenantImage(b: Image, t: Tenant): (r: Image)
    requires Ordered(b)
    ensures Ordered(r)
  {
    b.(tenants := b.tenants[t.id := t], tenantKeys := Insert(b.tenantKeys, t.id))
  }

  // What a write does to the entries an index should hold.

  lemma ScheduleEntriesPut(rows: map<Key, Schedule>, p: Key, s: Schedule)
    ensures SchedulesByStatus(rows[p := s])
         == SchedulesByStatus(rows)[p := Entry(p.0, ScheduleStatusText(s.status), p.1)]
  {
  }

  lemma StatusEntriesPut(rows: map<Key, Execution>, p: Key, e: Execution)
    ensures ExecutionsByStatus(rows[p := e]) == ExecutionsByStatus(rows)[p := Entry(p.0, StatusText(e.status), p.1)]
  {
  }

  lemma ByScheduleEntriesPut(rows: map<Key, Execution>, p: Key, e: Execution)
    ensures ExecutionsBySchedule(rows[p := e]) == ExecutionsBySchedule(rows)[p := Entry(p.0, e.scheduleID, p.1)]
  {
  }

  lemma AttemptEntriesPut(rows: map<Key, Attempt>, p: Key, a: Attempt)
    ensures AttemptsByExecution(rows[p := a]) == AttemptsByExecution(rows)[p := Entry(p.0, a.executionID, p.1)]
  {
  }

  // The key a write removes is the one of the row it replaces.

  lemma PreviousScheduleKey(bucket: map<string, Schedule>, rows: map<Key, Schedule>, p: Key)
    requires RowsAgree(bucket, rows) && ColonFree(p.0) && forall q :: q in rows ==> (rows[q].tenantID, rows[q].id) == q
    ensures (if Lookup(bucket, p).Some? then [ScheduleEntryKey(Lookup(bucket, p).value)] else [])
         == PreviousKeys(SchedulesByStatus(rows), p)
  {
    LookupAgrees(bucket, rows, p);
  }

  lemma PreviousExecutionKey(bucket: map<string, Execution>, rows: map<Key, Execution>, p: Key)
    requires RowsAgree(bucket, rows) && ColonFree(p.0) && OwnIds(rows)
    ensures (if Lookup(bucket, p).Some? then [ExecutionStatusKey(Lookup(bucket, p).value)] else [])
         == PreviousKeys(ExecutionsByStatus(rows), p)
  {
    LookupAgrees(bucket, rows, p);
  }

  lemma PutScheduleFits(bucket: map<string, Schedule>, byStatus: seq<string>, rows: map<Key, Schedule>, s: Schedule)
    requires SchedulesFit(bucket, byStatus, rows) && ColonFree(s.tenantID)
    ensures var p := (s.tenantID, s.id);
            var previous := if Lookup(bucket, p).Some? then [ScheduleEntryKey(Lookup(bucket, p).value)] else [];
            SchedulesFit(bucket[RowKey(p) := s], Reindex(byStatus, previous, ScheduleEntryKey(s)), rows[p := s])
  {
    var p := (s.tenantID, s.id);
    PutAgrees(bucket, rows, p, s);
    PreviousScheduleKey(bucket, rows, p);
    ReindexIsImage(byStatus, SchedulesByStatus(rows), p, Entry(p.0, ScheduleStatusText(s.status), p.1));
    ScheduleEntriesPut(rows, p, s);
  }

  lemma PutExecutionByStatus(bucket: map<string, Execution>, byStatus: seq<string>, rows: map<Key, Execution>,
                             e: Execution)
    requires RowsAgree(bucket, rows) && OwnIds(rows) && IsImage(byStatus, ExecutionsByStatus(rows))
             && ColonFree(e.tenantID)
    ensures var p := (e.tenantID, e.id);
            var previous := if Lookup(bucket, p).Some? then [ExecutionStatusKey(Lookup(bucket, p).value)] else [];
            IsImage(Reindex(byStatus, previous, ExecutionStatusKey(e)), ExecutionsByStatus(rows[p := e]))
  {
    var p := (e.tenantID, e.id);
    PreviousExecutionKey(bucket, rows, p);
    ReindexIsImage(byStatus, ExecutionsByStatus(rows), p, Entry(p.0, StatusText(e.status), p.1));
    StatusEntriesPut(rows, p, e);
  }

  lemma PutExecutionBySchedule(bySchedule: seq<string>, rows: map<Key, Execution>, e: Execution)
    requires IsImage(bySchedule, ExecutionsBySchedule(rows)) && ColonFree(e.tenantID)
    requires var p := (e.tenantID, e.id); p in rows ==> rows[p].scheduleID == e.scheduleID
    ensures IsImage(Insert(bySchedule, ExecutionScheduleKey(e)), ExecutionsBySchedule(rows[(e.tenantID, e.id) := e]))
  {
    var p := (e.tenantID, e.id);
    InsertIsImage(bySchedule, ExecutionsBySchedule(rows), p, Entry(p.0, e.scheduleID, p.1));
    ByScheduleEntriesPut(rows, p, e);
  }

  lemma PutExecutionFits(bucket: map<string, Execution>, byStatus: seq<string>, bySchedule: seq<string>,
                         rows: map<Key, Execution>, e: Execution)
    requires ExecutionsFit(bucket, byStatus, bySchedule, rows) && ColonFree(e.tenantID) && ColonFree(e.id)
    requires var p := (e.tenantID, e.id); p in rows ==> rows[p].scheduleID == e.scheduleID
    ensures var p := (e.tenantID, e.id);
            var previous := if Lookup(bucket, p).Some? then [ExecutionStatusKey(Lookup(bucket, p).value)] else [];
            ExecutionsFit(bucket[RowKey(p) := e], Reindex(byStatus, previous, ExecutionStatusKey(e)),
                          Insert(bySchedule, ExecutionScheduleKey(e)), rows[p := e])
  {
    PutAgrees(bucket, rows, (e.tenantID, e.id), e);
    PutExecutionByStatus(bucket, byStatus, rows, e);
    PutExecutionBySchedule(bySchedule, rows, e);
    PutKeepsOwnIds(rows, e);
  }

  lemma PutKeepsOwnIds(rows: map<Key, Execution>, e: Execution)
    requires OwnIds(rows) && ColonFree(e.id)
    ensures OwnIds(rows[(e.tenantID, e.id) := e])
  {
  }

  lemma PutAttemptByExecution(byExecution: seq<string>, rows: map<Key, Attempt>, a: Attempt)
    requires IsImage(byExecution, AttemptsByExecution(rows)) && PlainFields(AttemptsByExecution(rows))
    requires ColonFree(a.tenantID) && ColonFree(a.executionID)
    requires var p := (a.tenantID, a.id); p in rows ==> rows[p].executionID == a.executionID
    ensures var next := AttemptsByExecution(rows[(a.tenantID, a.id) := a]);
            IsImage(Insert(byExecution, AttemptExecutionKey(a)), next) && PlainFields(next)
  {
    var p := (a.tenantID, a.id);
    InsertIsImage(byExecution, AttemptsByExecution(rows), p, Entry(p.0, a.executionID, p.1));
    AttemptEntriesPut(rows, p, a);
  }

  lemma PutAttemptFits(bucket: map<string, Attempt>, byExecution: seq<string>, rows: map<Key, Attempt>, a: Attempt)
    requires AttemptsFit(bucket, byExecution, rows) && ColonFree(a.tenantID) && ColonFree(a.executionID)
    requires var p := (a.tenantID, a.id); p in rows ==> rows[p].executionID == a.executionID
    ensures var p := (a.tenantID, a.id);
            AttemptsFit(bucket[RowKey(p) := a], Insert(byExecution, AttemptExecutionKey(a)), rows[p := a])
  {
    PutAgrees(bucket, rows, (a.tenantID, a.id), a);
    PutAttemptByExecution(byExecution, rows, a);
  }

  lemma PutScheduleRepresents(b: Image, db: DB, s: Schedule)
    requires Represents(b, db) && ColonFree(s.tenantID)
    ensures Ordered(b)
    ensures Represents(PutScheduleImage(b, s), db.(schedules := db.schedules[(s.tenantID, s.id) := s]))
  {
    PutScheduleFits(b.schedules, b.schedulesByStatus, db.schedules, s);
  }

  /** Storing an execution keeps every index exact as long as it does not change schedule. */
  lemma PutExecutionRepresents(b: Image, db: DB, e: Execution)
    requires Represents(b, db) && ColonFree(e.tenantID) && ColonFree(e.id)
    requires var p := (e.tenantID, e.id); p in db.executions ==> db.executions[p].scheduleID == e.scheduleID
    ensures Ordered(b)
    ensures Represents(PutExecutionImage(b, e), db.(executions := db.executions[(e.tenantID, e.id) := e]))
  {
    PutExecutionFits(b.executions, b.executionsByStatus, b.executionsBySchedule, db.executions, e);
  }

  lemma PutAttemptRepresents(b: Image, db: DB, a: Attempt)
    requires Represents(b, db) && ColonFree(a.tenantID) && ColonFree(a.executionID)
    requires var p := (a.tenantID, a.id); p in db.attempts ==> db.attempts[p].executionID == a.executionID
    ensures Ordered(b)
    ensures Represents(PutAttemptImage(b, a), db.(attempts := db.attempts[(a.tenantID, a.id) := a]))
  {
    PutAttemptFits(b.attempts, b.attemptsByExecution, db.attempts, a);
  }

  lemma PutTenantFits(bucket: map<string, Tenant>, keys: seq<string>, rows: map<string, Tenant>, t: Tenant)
    requires TenantsFit(bucket, keys, rows)
    ensures TenantsFit(bucket[t.id := t], Insert(keys, t.id), rows[t.id := t])
  {
  }

  lemma PutTenantRepresents(b: Image, db: DB, t: Tenant)
    requires Represents(b, db)
    ensures Ordered(b)
    ensures Represents(PutTenantImage(b, t), db.(tenants := db.tenants[t.id := t]))
  {
    PutTenantFits(b.tenants, b.tenantKeys, db.tenants, t);
  }

  // ------------------------------------------------------------------ reading rows

  /** The rows under a scan's IDs, or an error at the first that is missing. */
  function Fetch<V>(bucket: map<string, V>, t: string, ids: seq<string>): Result<seq<V>> {
    if forall id :: id in ids ==> RowKey((t, id)) in bucket
    then Ok(seq(|ids|, i requires 0 <= i < |ids| && ids[i] in ids && RowKey((t, ids[i])) in bucket
                       => bucket[RowKey((t, ids[i]))]))
    else Err(CommandError(StorageFailure, NoField))
  }

  lemma FetchAgrees<V>(bucket: map<string, V>, rows: map<Key, V>, t: string, ids: seq<string>)
    requires RowsAgree(bucket, rows) && forall id :: id in ids ==> (t, id) in rows
    ensures Fetch(bucket, t, ids) == Ok(RowsOf(rows, t, ids))
  {
    assert Fetch(bucket, t, ids).Ok?;
    assert Fetch(bucket, t, ids).value == RowsOf(rows, t, ids);
  }

  /** The same on the table. */
  ghost function FetchRows<V>(rows: map<Key, V>, t: string, ids: seq<string>): Result<seq<V>> {
    if forall id :: id in ids ==> (t, id) in rows then Ok(RowsOf(rows, t, ids))
    else Err(CommandError(StorageFailure, NoField))
  }

  lemma FetchIsFetchRows<V>(bucket: map<string, V>, rows: map<Key, V>, t: string, ids: seq<string>)
    requires RowsAgree(bucket, rows) && ColonFree(t)
    ensures Fetch(bucket, t, ids) == FetchRows(rows, t, ids)
  {
    forall id
      ensures RowKey((t, id)) in bucket <==> (t, id) in rows
    {
      LookupAgrees(bucket, rows, (t, id));
    }
    if forall id :: id in ids ==> (t, id) in rows {
      FetchAgrees(bucket, rows, t, ids);
    }
  }

  lemma StatusListed(byStatus: seq<string>, rows: map<Key, Execution>, t: string, status: ExecutionStatus, id: string)
    requires IsImage(byStatus, ExecutionsByStatus(rows)) && ColonFree(t)
    ensures id in Ids(byStatus, ScanPrefix(t, StatusText(status)))
            <==> (t, id) in rows && rows[(t, id)].status == status
  {
    assert PlainFields(ExecutionsByStatus(rows));
    ScanIsExact(byStatus, ExecutionsByStatus(rows), t, StatusText(status), id);
    if (t, id) in rows && StatusText(rows[(t, id)].status) == StatusText(status) {
      StatusTextInjective(rows[(t, id)].status, status);
    }
  }

  lemma ByStatusIsExact(b: Image, db: DB, t: string, status: ExecutionStatus)
    requires Represents(b, db) && ColonFree(t)
    ensures Ids(b.executionsByStatus, ScanPrefix(t, StatusText(status))) == InOrder(IdsByStatus(db, t, status))
  {
    var ids := Ids(b.executionsByStatus, ScanPrefix(t, StatusText(status)));
    IdsAreExact(b.executionsByStatus, ScanPrefix(t, StatusText(status)));
    forall id ensures id in ids <==> id in InOrder(IdsByStatus(db, t, status)) {
      StatusListed(b.executionsByStatus, db.executions, t, status, id);
      assert (t, id) in db.executions ==> (id in IdsByStatus(db, t, status)
                                           <==> db.executions[(t, id)].status == status);
    }
    SortedUnique(ids, InOrder(IdsByStatus(db, t, status)));
  }

  /** The IDs under which the scan for a schedule lists executions of its tenant. */
  ghost function Hits(db: DB, t: string, scheduleID: string): set<string> {
    set p | p in db.executions && p.0 == t && Meets(scheduleID, db.executions[p].scheduleID, p.1)
      :: HitOf(scheduleID, db.executions[p].scheduleID, p.1)
  }

  lemma HitIff(db: DB, t: string, f: string, x: string)
    ensures x in Hits(db, t, f)
       <==> exists p :: p in db.executions && p.0 == t && f + ":" + x == db.executions[p].scheduleID + ":" + p.1
  {
    if x in Hits(db, t, f) {
      var p :| p in db.executions && p.0 == t && Meets(f, db.executions[p].scheduleID, p.1)
               && HitOf(f, db.executions[p].scheduleID, p.1) == x;
      var key := db.executions[p].scheduleID + ":" + p.1;
      assert key == key[..|f| + 1] + key[|f| + 1..];
    }
    if p :| p in db.executions && p.0 == t && f + ":" + x == db.executions[p].scheduleID + ":" + p.1 {
      assert Meets(f, db.executions[p].scheduleID, p.1) && HitOf(f, db.executions[p].scheduleID, p.1) == x;
    }
  }

  /** Whatever the schedule IDs, the scan lists its hits by increasing ID. */
  lemma ByScheduleFindsHits(b: Image, db: DB, t: string, f: string)
    requires Represents(b, db) && ColonFree(t)
    ensures Ids(b.executionsBySchedule, ScanPrefix(t, f)) == InOrder(Hits(db, t, f))
  {
    var ids, entries := Ids(b.executionsBySchedule, ScanPrefix(t, f)), ExecutionsBySchedule(db.executions);
    IdsAreExact(b.executionsBySchedule, ScanPrefix(t, f));
    forall x ensures x in ids <==> x in InOrder(Hits(db, t, f)) {
      ScanFindsIff(b.executionsBySchedule, entries, t, f, x);
      HitIff(db, t, f, x);
      SameRows(db, t, f, x);
    }
    SortedUnique(ids, InOrder(Hits(db, t, f)));
  }

  lemma SameRows(db: DB, t: string, f: string, x: string)
    ensures (exists p :: p in ExecutionsBySchedule(db.executions) && p.0 == t
                         && f + ":" + x == ExecutionsBySchedule(db.executions)[p].field + ":" + p.1)
       <==> (exists p :: p in db.executions && p.0 == t && f + ":" + x == db.executions[p].scheduleID + ":" + p.1)
  {
    var entries := ExecutionsBySchedule(db.executions);
    if p :| p in entries && p.0 == t && f + ":" + x == entries[p].field + ":" + p.1 {
      assert p in db.executions && f + ":" + x == db.executions[p].scheduleID + ":" + p.1;
    }
    if p :| p in db.executions && p.0 == t && f + ":" + x == db.executions[p].scheduleID + ":" + p.1 {
      assert p in entries && f + ":" + x == entries[p].field + ":" + p.1;
    }
  }

  lemma ColonAfterPrefix(a: string, s: string)
    ensures a + ":" <= s ==> !ColonFree(s)
  {
    if a + ":" <= s {
      assert s[|a|] == ':';
    }
  }

  /** With colon-free execution IDs, each row the scan meets is one of its own, or one that shadows
      it, listed under an ID no execution has. */
  lemma HitsSplit(db: DB, t: string, f: string, p: Key)
    requires p in db.executions && p.0 == t && ColonFree(p.1) && db.executions[p].tenantID == t
             && db.executions[p].id == p.1
    ensures Meets(f, db.executions[p].scheduleID, p.1)
       <==> db.executions[p].scheduleID == f || Shadows((t, f), db.executions[p])
    ensures db.executions[p].scheduleID == f ==> HitOf(f, f, p.1) == p.1
    ensures Shadows((t, f), db.executions[p]) ==>
              && HitOf(f, db.executions[p].scheduleID, p.1) == DanglingID((t, f), db.executions[p])
              && !ColonFree(DanglingID((t, f), db.executions[p]))
  {
    var g := db.executions[p].scheduleID;
    MeetsIff(f, g, p.1);
    ColonAfterPrefix(if |g| < |f| then f[|g| + 1..] else "", p.1);
    if f + ":" <= g {
      assert DanglingID((t, f), db.executions[p])[|g| - |f| - 1] == ':';
    }
  }

  /** The scan for a schedule lists exactly the schedule's executions, if and only if no execution
      of its tenant shadows it. */
  lemma ByScheduleIsExactIff(b: Image, db: DB, t: string, f: string)
    requires Represents(b, db) && ColonFree(t)
    ensures Ids(b.executionsBySchedule, ScanPrefix(t, f)) == InOrder(IdsBySchedule(db, t, f)) <==> !Shadowed(db, (t, f))
    ensures Shadowed(db, (t, f)) ==> exists x :: x in Hits(db, t, f) && (t, x) !in db.executions
    ensures !Shadowed(db, (t, f)) ==> Hits(db, t, f) == IdsBySchedule(db, t, f)
  {
    ByScheduleFindsHits(b, db, t, f);
    HitsAreIdsIff(db, t, f);
  }

  lemma HitsAreIdsIff(db: DB, t: string, f: string)
    requires OwnIds(db.executions)
    ensures InOrder(Hits(db, t, f)) == InOrder(IdsBySchedule(db, t, f)) <==> !Shadowed(db, (t, f))
    ensures Shadowed(db, (t, f)) ==> exists x :: x in Hits(db, t, f) && (t, x) !in db.executions
    ensures !Shadowed(db, (t, f)) ==> Hits(db, t, f) == IdsBySchedule(db, t, f)
  {
    if Shadowed(db, (t, f)) {
      var p :| p in db.executions && Shadows((t, f), db.executions[p]);
      HitsSplit(db, t, f, p);
      var x := DanglingID((t, f), db.executions[p]);
      assert x in Hits(db, t, f) && (t, x) !in db.executions;
      assert x in InOrder(Hits(db, t, f)) && x !in InOrder(IdsBySchedule(db, t, f));
    } else {
      forall x ensures x in Hits(db, t, f) <==> x in IdsBySchedule(db, t, f) {
        UnshadowedHit(db, t, f, x);
      }
      assert Hits(db, t, f) == IdsBySchedule(db, t, f);
    }
  }

  lemma UnshadowedHit(db: DB, t: string, f: string, x: string)
    requires OwnIds(db.executions)
    requires !Shadowed(db, (t, f))
    ensures x in Hits(db, t, f) <==> x in IdsBySchedule(db, t, f)
  {
    if x in Hits(db, t, f) {
      var p :| p in db.executions && p.0 == t && Meets(f, db.executions[p].scheduleID, p.1)
               && HitOf(f, db.executions[p].scheduleID, p.1) == x;
      HitsSplit(db, t, f, p);
      assert p.1 in IdsBySchedule(db, t, f);
    }
    if x in IdsBySchedule(db, t, f) {
      HitsSplit(db, t, f, (t, x));
      assert (t, x) in db.executions;
    }
  }

  lemma AttemptsAreExact(b: Image, db: DB, t: string, executionID: string)
    requires Represents(b, db) && ColonFree(t) && ColonFree(executionID)
    ensures Ids(b.attemptsByExecution, ScanPrefix(t, executionID)) == InOrder(AttemptIds(db, t, executionID))
  {
    var ids := Ids(b.attemptsByExecution, ScanPrefix(t, executionID));
    IdsAreExact(b.attemptsByExecution, ScanPrefix(t, executionID));
    forall id ensures id in ids <==> id in InOrder(AttemptIds(db, t, executionID)) {
      ScanIsExact(b.attemptsByExecution, AttemptsByExecution(db.attempts), t, executionID, id);
      if (t, id) in db.attempts {
        assert id in AttemptIds(db, t, executionID) <==> db.attempts[(t, id)].executionID == executionID;
      }
    }
    SortedUnique(ids, InOrder(AttemptIds(db, t, executionID)));
  }

  lemma ActiveIsExact(b: Image, db: DB, t: string)
    requires Represents(b, db) && ColonFree(t)
    ensures Ids(b.schedulesByStatus, ScanPrefix(t, "active")) == InOrder(ActiveIds(db, t))
  {
    var ids := Ids(b.schedulesByStatus, ScanPrefix(t, "active"));
    assert ScheduleStatusText(Active) == "active";
    IdsAreExact(b.schedulesByStatus, ScanPrefix(t, "active"));
    forall id ensures id in ids <==> id in InOrder(ActiveIds(db, t)) {
      ScanIsExact(b.schedulesByStatus, SchedulesByStatus(db.schedules), t, "active", id);
      if (t, id) in db.schedules {
        assert id in ActiveIds(db, t) <==> db.schedules[(t, id)].status.Active?;
        if ScheduleStatusText(db.schedules[(t, id)].status) == "active" {
          ScheduleStatusTextInjective(db.schedules[(t, id)].status, Active);
        }
      }
    }
    SortedUnique(ids, InOrder(ActiveIds(db, t)));
  }
}
