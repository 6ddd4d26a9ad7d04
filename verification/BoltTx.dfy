/** The transaction handle through which commands and readers reach the buckets. */
module BoltTx {
  import opened Base
  import opened Calendar
  import opened Domain
  import opened Fsm
  import opened Buckets
  import opened Pages
  import opened Indexes
  import opened Storage

  function Find<V>(rows: map<Key, V>, p: Key): Option<V> {
    if p in rows then Some(rows[p]) else None
  }

  /** Reads the row behind every ID of a scan. */
  method FetchAll<V>(bucket: map<string, V>, t: string, ids: seq<string>) returns (r: Result<seq<V>>)
    ensures r == Fetch(bucket, t, ids)
  {
    var rows: seq<V> := [];
    var i := 0;
    while i < |ids|
      invariant 0 <= i <= |ids| && |rows| == i
      invariant forall j :: 0 <= j < i ==> RowKey((t, ids[j])) in bucket && rows[j] == bucket[RowKey((t, ids[j]))]
    {
      if RowKey((t, ids[i])) !in bucket {
        assert ids[i] in ids;
        return Err(CommandError(StorageFailure, NoField));
      }
      rows := rows + [bucket[RowKey((t, ids[i]))]];
      i := i + 1;
    }
    r := Ok(rows);
    assert r.value == Fetch(bucket, t, ids).value;
  }

  ghost function TenantRows(rows: map<string, Tenant>, ids: seq<string>): (r: seq<Tenant>)
    requires forall id :: id in ids ==> id in rows
    ensures |r| == |ids|
  {
    seq(|ids|, i requires 0 <= i < |ids| => assert ids[i] in ids; rows[ids[i]])
  }

  method FetchTenants(bucket: map<string, Tenant>, ids: seq<string>) returns (r: seq<Tenant>)
    requires forall id :: id in ids ==> id in bucket
    ensures r == TenantRows(bucket, ids)
  {
    r := [];
    var i := 0;
    while i < |ids|
      invariant 0 <= i <= |ids| && |r| == i
      invariant forall j :: 0 <= j < i ==> ids[j] in bucket && r[j] == bucket[ids[j]]
    {
      assert ids[i] in ids;
      r := r + [bucket[ids[i]]];
      i := i + 1;
    }
  }

  lemma TenantKeysInOrder(b: Image, db: DB)
    requires Represents(b, db)
    ensures b.tenantKeys == InOrder(db.tenants.Keys) && b.tenants == db.tenants && Sorted(b.tenantKeys)
    ensures forall id :: id in b.tenantKeys ==> id in db.tenants
  {
    TenantKeysSorted(b.tenants, b.tenantKeys, db.tenants);
  }

  lemma TenantKeysSorted(bucket: map<string, Tenant>, keys: seq<string>, rows: map<string, Tenant>)
    requires TenantsFit(bucket, keys, rows)
    ensures keys == InOrder(rows.Keys) && forall id :: id in keys ==> id in rows
  {
    SortedUnique(keys, InOrder(rows.Keys));
  }

  /** A scan without a prefix lists the whole bucket. */
  lemma EmptyPrefix(keys: seq<string>)
    requires Sorted(keys)
    ensures Ids(keys, "") == keys
  {
    var ids := Ids(keys, "");
    IdsAreExact(keys, "");
    forall x ensures x in ids <==> x in keys {
      assert "" + x == x;
    }
    SortedUnique(ids, keys);
  }

  class Tx {
    var buckets: Image
    /** The tables the buckets are meant to represent. */
    ghost var db: DB

    ghost predicate Faithful()
      reads this
    {
      Represents(buckets, db)
    }

    constructor ()
      ensures Faithful() && Ordered(buckets) && db == EMPTY_DB
    {
      buckets := Image(map[], [], map[], map[], map[], [], [], [], []);
      db := EMPTY_DB;
    }

    method GetTenant(id: string) returns (r: Option<Tenant>)
      ensures Faithful() ==> r == if id in db.tenants then Some(db.tenants[id]) else None
    {
      r := if id in buckets.tenants then Some(buckets.tenants[id]) else None;
    }

    method GetSchedule(t: string, id: string) returns (r: Option<Schedule>)
      ensures Faithful() && ColonFree(t) ==> r == Find(db.schedules, (t, id))
    {
      r := Lookup(buckets.schedules, (t, id));
      if Faithful() && ColonFree(t) { LookupAgrees(buckets.schedules, db.schedules, (t, id)); }
    }

    method GetExecution(t: string, id: string) returns (r: Option<Execution>)
      ensures r == Lookup(buckets.executions, (t, id))
      ensures Faithful() && ColonFree(t) ==> r == Find(db.executions, (t, id))
    {
      r := Lookup(buckets.executions, (t, id));
      if Faithful() && ColonFree(t) { LookupAgrees(buckets.executions, db.executions, (t, id)); }
    }

    method PutTenant(tenant: Tenant)
      requires Ordered(buckets)
      modifies this
      ensures Ordered(buckets)
      ensures db == old(db).(tenants := old(db).tenants[tenant.id := tenant])
      ensures old(Faithful()) ==> Faithful()
    {
      if Faithful() { PutTenantRepresents(buckets, db, tenant); }
      buckets := buckets.(tenants := buckets.tenants[tenant.id := tenant],
                          tenantKeys := Insert(buckets.tenantKeys, tenant.id));
      db := db.(tenants := db.tenants[tenant.id := tenant]);
    }

    method PutSchedule(s: Schedule)
      requires Ordered(buckets)
      modifies this
      ensures Ordered(buckets)
      ensures db == old(db).(schedules := old(db).schedules[(s.tenantID, s.id) := s])
      ensures old(Faithful()) && ColonFree(s.tenantID) ==> Faithful()
    {
      if Faithful() && ColonFree(s.tenantID) { PutScheduleRepresents(buckets, db, s); }
      var p := (s.tenantID, s.id);
      var oldRow := Lookup(buckets.schedules, p);
      var byStatus := buckets.schedulesByStatus;
      if oldRow.Some? {
        byStatus := Delete(byStatus, ScheduleEntryKey(oldRow.value));
      }
      buckets := buckets.(schedules := buckets.schedules[RowKey(p) := s],
                          schedulesByStatus := Insert(byStatus, ScheduleEntryKey(s)));
      db := db.(schedules := db.schedules[p := s]);
    }

    method PutExecution(e: Execution)
      requires Ordered(buckets)
      modifies this
      ensures Ordered(buckets)
      ensures db == old(db).(executions := old(db).executions[(e.tenantID, e.id) := e])
      ensures old(Faithful()) && ColonFree(e.tenantID) && ColonFree(e.id)
              && ((e.tenantID, e.id) in old(db).executions ==>
                  old(db).executions[(e.tenantID, e.id)].scheduleID == e.scheduleID)
              ==> Faithful()
    {
      var p := (e.tenantID, e.id);
      if Faithful() && ColonFree(e.tenantID) && ColonFree(e.id)
         && (p in db.executions ==> db.executions[p].scheduleID == e.scheduleID) {
        PutExecutionRepresents(buckets, db, e);
      }
      var oldRow := Lookup(buckets.executions, p);
      var byStatus := buckets.executionsByStatus;
      if oldRow.Some? {
        byStatus := Delete(byStatus, ExecutionStatusKey(oldRow.value));
      }
      buckets := buckets.(executions := buckets.executions[RowKey(p) := e],
                          executionsByStatus := Insert(byStatus, ExecutionStatusKey(e)),
                          executionsBySchedule := Insert(buckets.executionsBySchedule, ExecutionScheduleKey(e)));
      db := db.(executions := db.executions[p := e]);
    }

    method PutAttempt(a: Attempt)
      requires Ordered(buckets)
      modifies this
      ensures Ordered(buckets)
      ensures db == old(db).(attempts := old(db).attempts[(a.tenantID, a.id) := a])
      ensures old(Faithful()) && ColonFree(a.tenantID) && ColonFree(a.executionID)
              && ((a.tenantID, a.id) in old(db).attempts ==>
                  old(db).attempts[(a.tenantID, a.id)].executionID == a.executionID)
              ==> Faithful()
    {
      var p := (a.tenantID, a.id);
      if Faithful() && ColonFree(a.tenantID) && ColonFree(a.executionID)
         && (p in db.attempts ==> db.attempts[p].executionID == a.executionID) {
        PutAttemptRepresents(buckets, db, a);
      }
      buckets := buckets.(attempts := buckets.attempts[RowKey(p) := a],
                          attemptsByExecution := Insert(buckets.attemptsByExecution, AttemptExecutionKey(a)));
      db := db.(attempts := db.attempts[p := a]);
    }

    // -------------------------------------------------------------- lists

    /** The executions of a schedule, once each, by increasing ID; an error exactly if the executions
        of another schedule shadow them. */
    method ListExecutionsBySchedule(t: string, scheduleID: string) returns (r: Result<seq<Execution>>)
      requires Ordered(buckets)
      ensures Faithful() && ColonFree(t) ==>
        r == if Shadowed(db, (t, scheduleID)) then Err(CommandError(StorageFailure, NoField))
            else Ok(ListBySchedule(db, t, scheduleID))
    {
      var ids := Scan(buckets.executionsBySchedule, ScanPrefix(t, scheduleID));
      r := FetchAll(buckets.executions, t, ids);
      if Faithful() && ColonFree(t) { ListedIs(buckets, db, t, scheduleID); }
    }

    method ListExecutionsByStatus(t: string, status: ExecutionStatus) returns (r: Result<seq<Execution>>)
      requires Ordered(buckets)
      ensures Faithful() && ColonFree(t) ==> r == Ok(ListByStatus(db, t, status))
    {
      var ids := Scan(buckets.executionsByStatus, ScanPrefix(t, StatusText(status)));
      r := FetchAll(buckets.executions, t, ids);
      if Faithful() && ColonFree(t) {
        ByStatusIsExact(buckets, db, t, status);
        FetchAgrees(buckets.executions, db.executions, t, ids);
      }
    }

    method ListAttemptsByExecution(t: string, executionID: string) returns (r: Result<seq<Attempt>>)
      requires Ordered(buckets)
      ensures Faithful() && ColonFree(t) && ColonFree(executionID) ==> r == Ok(ListAttempts(db, t, executionID))
    {
      var ids := Scan(buckets.attemptsByExecution, ScanPrefix(t, executionID));
      r := FetchAll(buckets.attempts, t, ids);
      if Faithful() && ColonFree(t) && ColonFree(executionID) {
        AttemptsAreExact(buckets, db, t, executionID);
        FetchAgrees(buckets.attempts, db.attempts, t, ids);
      }
    }

    /** The active schedules whose next run has come, by increasing ID. */
    method ListSchedulesDue(t: string, now: Instant) returns (r: Result<seq<Schedule>>)
      requires Ordered(buckets)
      ensures Faithful() && ColonFree(t) ==> r == Ok(Due(RowsOf(db.schedules, t, InOrder(ActiveIds(db, t))), now))
    {
      var ids := Scan(buckets.schedulesByStatus, ScanPrefix(t, "active"));
      var fetched := FetchAll(buckets.schedules, t, ids);
      if Faithful() && ColonFree(t) {
        ActiveIsExact(buckets, db, t);
        FetchAgrees(buckets.schedules, db.schedules, t, ids);
      }
      if fetched.Err? {
        return Err(fetched.error);
      }
      var rows := fetched.value;
      var due: seq<Schedule> := [];
      var i := 0;
      while i < |rows|
        invariant 0 <= i <= |rows|
        invariant due == Due(rows[..i], now)
      {
        DueStep(rows, i, now);
        if !(rows[i].nextRunAt.None? || rows[i].nextRunAt.value > now) {
          due := due + [rows[i]];
        }
        i := i + 1;
      }
      assert rows[..i] == rows;
      r := Ok(due);
    }

    /** Tenants by increasing ID. */
    method ListTenants() returns (r: seq<Tenant>)
      requires Faithful()
      ensures r == TenantRows(db.tenants, InOrder(db.tenants.Keys))
    {
      TenantKeysInOrder(buckets, db);
      r := FetchTenants(buckets.tenants, buckets.tenantKeys);
    }

    // -------------------------------------------------------------- pages

    method ListTenantsPage(limit: int, cursor: string) returns (r: seq<Tenant>, nextCursor: string)
      requires Faithful() && Ordered(buckets)
      ensures var page := PageOf(InOrder(db.tenants.Keys), limit, cursor);
              && (forall id :: id in page.items ==> id in db.tenants)
              && r == TenantRows(db.tenants, page.items) && nextCursor == page.nextCursor
    {
      TenantKeysInOrder(buckets, db);
      EmptyPrefix(buckets.tenantKeys);
      PageIsListed(InOrder(db.tenants.Keys), limit, cursor);
      var ids, next := ScanPage(buckets.tenantKeys, "", limit, cursor);
      r := FetchTenants(buckets.tenants, ids);
      nextCursor := next;
    }

    method ListExecutionsByStatusPage(t: string, status: ExecutionStatus, limit: int, cursor: string)
      returns (r: Result<seq<Execution>>, nextCursor: string)
      requires Ordered(buckets)
      ensures Faithful() && ColonFree(t) ==>
        var page := PageOf(InOrder(IdsByStatus(db, t, status)), limit, cursor);
        && (forall id :: id in page.items ==> (t, id) in db.executions)
        && r == Ok(RowsOf(db.executions, t, page.items)) && nextCursor == page.nextCursor
    {
      var ids, next := ScanPage(buckets.executionsByStatus, ScanPrefix(t, StatusText(status)), limit, cursor);
      r := FetchAll(buckets.executions, t, ids);
      nextCursor := if r.Ok? then next else "";
      if Faithful() && ColonFree(t) {
        ByStatusIsExact(buckets, db, t, status);
        PageIsListed(InOrder(IdsByStatus(db, t, status)), limit, cursor);
        FetchAgrees(buckets.executions, db.executions, t, ids);
      }
    }

    method ListExecutionsBySchedulePage(t: string, scheduleID: string, limit: int, cursor: string)
      returns (r: Result<seq<Execution>>, nextCursor: string)
      requires Ordered(buckets)
      ensures Faithful() && ColonFree(t) ==>
        var page := PageOf(InOrder(Hits(db, t, scheduleID)), limit, cursor);
        r == FetchRows(db.executions, t, page.items) && nextCursor == if r.Ok? then page.nextCursor else ""
      ensures Faithful() && ColonFree(t) && !Shadowed(db, (t, scheduleID)) ==>
        var page := PageOf(InOrder(IdsBySchedule(db, t, scheduleID)), limit, cursor);
        && (forall id :: id in page.items ==> (t, id) in db.executions)
        && r == Ok(RowsOf(db.executions, t, page.items)) && nextCursor == page.nextCursor
    {
      var ids, next := ScanPage(buckets.executionsBySchedule, ScanPrefix(t, scheduleID), limit, cursor);
      r := FetchAll(buckets.executions, t, ids);
      nextCursor := if r.Ok? then next else "";
      if Faithful() && ColonFree(t) {
        ByScheduleFindsHits(buckets, db, t, scheduleID);
        FetchIsFetchRows(buckets.executions, db.executions, t, ids);
        PageOfSchedule(db, t, scheduleID, limit, cursor);
      }
    }

    method ListAttemptsByExecutionPage(t: string, executionID: string, limit: int, cursor: string)
      returns (r: Result<seq<Attempt>>, nextCursor: string)
      requires Ordered(buckets)
      ensures Faithful() && ColonFree(t) && ColonFree(executionID) ==>
        var page := PageOf(InOrder(AttemptIds(db, t, executionID)), limit, cursor);
        && (forall id :: id in page.items ==> (t, id) in db.attempts)
        && r == Ok(RowsOf(db.attempts, t, page.items)) && nextCursor == page.nextCursor
    {
      var ids, next := ScanPage(buckets.attemptsByExecution, ScanPrefix(t, executionID), limit, cursor);
      r := FetchAll(buckets.attempts, t, ids);
      nextCursor := if r.Ok? then next else "";
      if Faithful() && ColonFree(t) && ColonFree(executionID) {
        AttemptsAreExact(buckets, db, t, executionID);
        PageIsListed(InOrder(AttemptIds(db, t, executionID)), limit, cursor);
        FetchAgrees(buckets.attempts, db.attempts, t, ids);
      }
    }
  }

  /** The schedules a tick should fire. */
  function Due(schedules: seq<Schedule>, now: Instant): seq<Schedule> {
    if schedules == [] then []
    else
      var last := schedules[|schedules| - 1];
      Due(schedules[..|schedules| - 1], now)
      + if last.nextRunAt.None? || last.nextRunAt.value > now then [] else [last]
  }

  lemma DueStep(rows: seq<Schedule>, i: nat, now: Instant)
    requires i < |rows|
    ensures Due(rows[..i + 1], now)
         == Due(rows[..i], now) + if rows[i].nextRunAt.None? || rows[i].nextRunAt.value > now then [] else [rows[i]]
  {
    assert rows[..i + 1][..i] == rows[..i];
  }

  lemma ListedIs(b: Image, db: DB, t: string, scheduleID: string)
    requires Represents(b, db) && ColonFree(t)
    ensures Ordered(b)
    ensures Fetch(b.executions, t, Ids(b.executionsBySchedule, ScanPrefix(t, scheduleID)))
         == if Shadowed(db, (t, scheduleID)) then Err(CommandError(StorageFailure, NoField))
             else Ok(ListBySchedule(db, t, scheduleID))
  {
    var hits := InOrder(Hits(db, t, scheduleID));
    ByScheduleFindsHits(b, db, t, scheduleID);
    HitsAreIdsIff(db, t, scheduleID);
    FetchIsFetchRows(b.executions, db.executions, t, hits);
    if Shadowed(db, (t, scheduleID)) {
      var x :| x in Hits(db, t, scheduleID) && (t, x) !in db.executions;
      assert x in hits;
    }
  }

  lemma PageOfSchedule(db: DB, t: string, scheduleID: string, limit: int, cursor: string)
    requires OwnIds(db.executions)
    ensures !Shadowed(db, (t, scheduleID)) ==>
      var page := PageOf(InOrder(IdsBySchedule(db, t, scheduleID)), limit, cursor);
      && Hits(db, t, scheduleID) == IdsBySchedule(db, t, scheduleID)
      && forall id :: id in page.items ==> (t, id) in db.executions
  {
    HitsAreIdsIff(db, t, scheduleID);
    PageIsListed(InOrder(IdsBySchedule(db, t, scheduleID)), limit, cursor);
  }

  lemma PageIsListed(ids: seq<string>, limit: int, cursor: string)
    requires Sorted(ids)
    ensures forall id :: id in PageOf(ids, limit, cursor).items ==> id in ids
  {
  }
}
