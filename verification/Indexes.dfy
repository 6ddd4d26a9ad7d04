/**
 Composite keys and secondary indexes (`internal/storage/storage.go`): keys are IDs joined
 with colons, and an index holds one key for every row.
 */
module Indexes {
  import opened Base
  import opened Buckets
  import opened Pages

  predicate ColonFree(s: string) { ':' !in s }

  /** Primary key: tenant, colon, ID. */
  function RowKey(p: Key): string { p.0 + ":" + p.1 }

  /** The prefix an index scan runs over. */
  function ScanPrefix(tenant: string, field: string): string { tenant + ":" + field + ":" }

  /** Index key: tenant, colon, indexed field, colon, ID. */
  function IndexKey(tenant: string, field: string, id: string): string { tenant + ":" + field + ":" + id }

  /** A text splits at its first colon in only one way. */
  lemma FirstColonSplits(a: string, x: string, b: string, y: string)
    requires ColonFree(a) && ColonFree(b) && a + ":" + x == b + ":" + y
    ensures a == b && x == y
  {
    var s, t := a + ":" + x, b + ":" + y;
    assert s[|a|] == ':' && t[|b|] == ':';
    assert forall i :: 0 <= i < |a| ==> s[i] == a[i] && s[i] != ':';
    assert forall i :: 0 <= i < |b| ==> t[i] == b[i] && t[i] != ':';
    assert s[..|a|] == a && t[..|b|] == b;
    assert s[|a| + 1..] == x && t[|b| + 1..] == y;
  }

  lemma RowKeyInjective(p: Key, q: Key)
    requires ColonFree(p.0) && ColonFree(q.0) && RowKey(p) == RowKey(q)
    ensures p == q
  {
    FirstColonSplits(p.0, p.1, q.0, q.1);
  }

  /** Two tenants can collide on a primary key exactly when they are equal or one of them is
      the other with a colon and more behind it. */
  lemma TenantsCollideIff(s: string, t: string)
    ensures (exists i, j :: RowKey((s, i)) == RowKey((t, j))) <==> s == t || s + ":" <= t || t + ":" <= s
  {
    if i, j :| RowKey((s, i)) == RowKey((t, j)) {
      CollidingTenants(s, i, t, j);
    }
    if s == t {
      assert RowKey((s, "")) == RowKey((t, ""));
    } else if s + ":" <= t {
      var rest := t[|s| + 1..];
      assert t == s + ":" + rest;
      assert RowKey((s, rest + ":")) == RowKey((t, ""));
    } else if t + ":" <= s {
      var rest := s[|t| + 1..];
      assert s == t + ":" + rest;
      assert RowKey((s, "")) == RowKey((t, rest + ":"));
    }
  }

  lemma CollidingTenants(s: string, i: string, t: string, j: string)
    requires RowKey((s, i)) == RowKey((t, j))
    ensures s == t || s + ":" <= t || t + ":" <= s
  {
    var a, b := RowKey((s, i)), RowKey((t, j));
    assert a[..|s|] == s && b[..|t|] == t && a[|s|] == ':' && b[|t|] == ':';
    if |s| == |t| {
    } else if |s| < |t| {
      assert t[..|s| + 1] == b[..|s| + 1] == s + ":";
    } else {
      assert s[..|t| + 1] == a[..|t| + 1] == t + ":";
    }
  }

  /** The index key of a row has the scan's prefix exactly when tenant and field match. */
  lemma IndexKeyMatches(tenant: string, field: string, id: string, t: string, f: string)
    requires ColonFree(tenant) && ColonFree(field) && ColonFree(t) && ColonFree(f)
    ensures ScanPrefix(t, f) <= IndexKey(tenant, field, id) <==> tenant == t && field == f
  {
    var k, p := IndexKey(tenant, field, id), ScanPrefix(t, f);
    if tenant == t && field == f {
      assert k[..|p|] == p;
    }
    if p <= k {
      var rest := k[|p|..];
      assert k == p + rest;
      assert k == t + ":" + (f + ":" + rest);
      assert k == tenant + ":" + (field + ":" + id);
      FirstColonSplits(tenant, field + ":" + id, t, f + ":" + rest);
      FirstColonSplits(field, id, f, rest);
    }
  }

  lemma IndexKeyInjective(t: string, f: string, i: string, t': string, f': string, i': string)
    requires ColonFree(t) && ColonFree(f) && ColonFree(t') && ColonFree(f')
    requires IndexKey(t, f, i) == IndexKey(t', f', i')
    ensures t == t' && f == f' && i == i'
  {
    assert IndexKey(t, f, i) == t + ":" + (f + ":" + i);
    assert IndexKey(t', f', i') == t' + ":" + (f' + ":" + i');
    FirstColonSplits(t, f + ":" + i, t', f' + ":" + i');
    FirstColonSplits(f, i, f', i');
  }

  // ------------------------------------------------------------------ a bucket and its table

  /** The bucket holds exactly the table's rows, each under its key; tenants have no colon. */
  ghost predicate RowsAgree<V>(bucket: map<string, V>, rows: map<Key, V>) {
    && (forall p :: p in rows ==> ColonFree(p.0) && RowKey(p) in bucket && bucket[RowKey(p)] == rows[p])
    && (forall k :: k in bucket ==> exists p :: p in rows && RowKey(p) == k)
  }

  lemma LookupAgrees<V>(bucket: map<string, V>, rows: map<Key, V>, p: Key)
    requires RowsAgree(bucket, rows) && ColonFree(p.0)
    ensures RowKey(p) in bucket <==> p in rows
    ensures p in rows ==> bucket[RowKey(p)] == rows[p]
  {
    if RowKey(p) in bucket {
      var q :| q in rows && RowKey(q) == RowKey(p);
      RowKeyInjective(p, q);
    }
  }

  lemma PutAgrees<V>(bucket: map<string, V>, rows: map<Key, V>, p: Key, v: V)
    requires RowsAgree(bucket, rows) && ColonFree(p.0)
    ensures RowsAgree(bucket[RowKey(p) := v], rows[p := v])
  {
    var bucket', rows' := bucket[RowKey(p) := v], rows[p := v];
    forall q | q in rows'
      ensures ColonFree(q.0) && RowKey(q) in bucket' && bucket'[RowKey(q)] == rows'[q]
    {
      if q != p && RowKey(q) == RowKey(p) {
        RowKeyInjective(p, q);
      }
    }
    forall k | k in bucket'
      ensures exists q :: q in rows' && RowKey(q) == k
    {
      if k == RowKey(p) {
        assert p in rows';
      } else {
        var q :| q in rows && RowKey(q) == k;
        assert q in rows';
      }
    }
  }

  // ------------------------------------------------------------------ an index and its entries

  /** What one row contributes to an index. */
  datatype Entry = Entry(tenant: string, field: string, id: string)

  function EntryKey(e: Entry): string { IndexKey(e.tenant, e.field, e.id) }

  ghost predicate WellFormedEntries(entries: map<Key, Entry>) {
    forall p :: p in entries ==> ColonFree(p.0) && entries[p].tenant == p.0 && entries[p].id == p.1
  }

  /** The indexed values have no colon. */
  ghost predicate PlainFields(entries: map<Key, Entry>) {
    forall p :: p in entries ==> ColonFree(entries[p].field)
  }

  ghost predicate HasEntry(entries: map<Key, Entry>, k: string) {
    exists p :: p in entries && EntryKey(entries[p]) == k
  }

  /** The index holds exactly the keys of the entries. */
  ghost predicate IsImage(keys: seq<string>, entries: map<Key, Entry>) {
    Sorted(keys) && WellFormedEntries(entries) && Lists(keys, entries) && Backed(keys, entries)
  }

  ghost predicate Lists(keys: seq<string>, entries: map<Key, Entry>) {
    forall p :: p in entries ==> EntryKey(entries[p]) in keys
  }

  ghost predicate Backed(keys: seq<string>, entries: map<Key, Entry>) {
    forall k :: k in keys ==> HasEntry(entries, k)
  }

  /** Replacing a row: its old key goes, its new key comes. */
  function Reindex(keys: seq<string>, previous: seq<string>, k: string): (r: seq<string>)
    requires Sorted(keys) && |previous| <= 1
    ensures Sorted(r)
    ensures forall x :: x in r <==> (x in keys && x !in previous) || x == k
  {
    Insert(if previous == [] then keys else Delete(keys, previous[0]), k)
  }

  function PreviousKeys(entries: map<Key, Entry>, p: Key): (keys: seq<string>)
    ensures |keys| <= 1
  {
    if p in entries then [EntryKey(entries[p])] else []
  }

  lemma EntryKeyInjective(a: Entry, b: Entry)
    requires ColonFree(a.tenant) && ColonFree(a.field) && ColonFree(b.tenant) && ColonFree(b.field)
    requires EntryKey(a) == EntryKey(b)
    ensures a == b
  {
    IndexKeyInjective(a.tenant, a.field, a.id, b.tenant, b.field, b.id);
  }

  lemma ReindexKeepsEntry(keys: seq<string>, entries: map<Key, Entry>, p: Key, e: Entry, q: Key)
    requires IsImage(keys, entries) && PlainFields(entries) && e.tenant == p.0 && e.id == p.1
    requires q in entries && q != p
    ensures EntryKey(entries[q]) in Reindex(keys, PreviousKeys(entries, p), EntryKey(e))
  {
    if p in entries {
      assert entries[p] != entries[q];
      if EntryKey(entries[q]) == EntryKey(entries[p]) {
        EntryKeyInjective(entries[q], entries[p]);
      }
    }
  }

  lemma ReindexKeepsKey(keys: seq<string>, entries: map<Key, Entry>, p: Key, e: Entry, k: string)
    requires IsImage(keys, entries) && e.tenant == p.0 && e.id == p.1
    requires k in Reindex(keys, PreviousKeys(entries, p), EntryKey(e))
    ensures HasEntry(entries[p := e], k)
  {
    var entries' := entries[p := e];
    if k == EntryKey(e) {
      assert p in entries' && EntryKey(entries'[p]) == k;
    } else {
      assert HasEntry(entries, k);
      var q :| q in entries && EntryKey(entries[q]) == k;
      assert q != p;
      assert q in entries' && EntryKey(entries'[q]) == k;
    }
  }

  lemma ReindexLists(keys: seq<string>, entries: map<Key, Entry>, p: Key, e: Entry)
    requires IsImage(keys, entries) && PlainFields(entries) && e.tenant == p.0 && e.id == p.1
    ensures Lists(Reindex(keys, PreviousKeys(entries, p), EntryKey(e)), entries[p := e])
  {
    var keys' := Reindex(keys, PreviousKeys(entries, p), EntryKey(e));
    forall q | q in entries && q != p
      ensures EntryKey(entries[q]) in keys'
    {
      ReindexKeepsEntry(keys, entries, p, e, q);
    }
  }

  lemma ReindexBacked(keys: seq<string>, entries: map<Key, Entry>, p: Key, e: Entry)
    requires IsImage(keys, entries) && e.tenant == p.0 && e.id == p.1
    ensures Backed(Reindex(keys, PreviousKeys(entries, p), EntryKey(e)), entries[p := e])
  {
    var keys', entries' := Reindex(keys, PreviousKeys(entries, p), EntryKey(e)), entries[p := e];
    forall k | k in keys'
      ensures HasEntry(entries', k)
    {
      ReindexKeepsKey(keys, entries, p, e, k);
    }
  }

  lemma WellFormedPut(entries: map<Key, Entry>, p: Key, e: Entry)
    requires WellFormedEntries(entries) && e.tenant == p.0 && e.id == p.1 && ColonFree(p.0)
    ensures WellFormedEntries(entries[p := e])
  {
  }

  lemma ReindexIsImage(keys: seq<string>, entries: map<Key, Entry>, p: Key, e: Entry)
    requires IsImage(keys, entries) && PlainFields(entries) && e.tenant == p.0 && e.id == p.1 && ColonFree(p.0)
    ensures IsImage(Reindex(keys, PreviousKeys(entries, p), EntryKey(e)), entries[p := e])
  {
    ReindexLists(keys, entries, p, e);
    ReindexBacked(keys, entries, p, e);
    WellFormedPut(entries, p, e);
  }

  /** A scan lists exactly the IDs of the entries with its tenant and field. */
  lemma ScanIsExact(keys: seq<string>, entries: map<Key, Entry>, t: string, f: string, id: string)
    requires IsImage(keys, entries) && PlainFields(entries) && ColonFree(t) && ColonFree(f)
    ensures id in Ids(keys, ScanPrefix(t, f)) <==> (t, id) in entries && entries[(t, id)].field == f
  {
    IdsAreExact(keys, ScanPrefix(t, f));
    var k := ScanPrefix(t, f) + id;
    assert k == IndexKey(t, f, id);
    if k in keys {
      assert HasEntry(entries, k);
      var p :| p in entries && EntryKey(entries[p]) == k;
      EntryKeyInjective(entries[p], Entry(t, f, id));
    }
    if (t, id) in entries && entries[(t, id)].field == f {
      assert EntryKey(entries[(t, id)]) == k;
    }
  }

  /** An index that never changes a row's key only needs the new keys, whatever the values. */
  lemma InsertIsImage(keys: seq<string>, entries: map<Key, Entry>, p: Key, e: Entry)
    requires IsImage(keys, entries) && e.tenant == p.0 && e.id == p.1 && ColonFree(p.0)
    requires p in entries ==> entries[p] == e
    ensures IsImage(Insert(keys, EntryKey(e)), entries[p := e])
  {
    var keys', entries' := Insert(keys, EntryKey(e)), entries[p := e];
    forall k | k in keys'
      ensures HasEntry(entries', k)
    {
      if k == EntryKey(e) {
        assert p in entries' && EntryKey(entries'[p]) == k;
      } else {
        assert HasEntry(entries, k);
        var q :| q in entries && EntryKey(entries[q]) == k;
        assert q in entries' && EntryKey(entries'[q]) == k;
      }
    }
  }

  // ------------------------------------------------------------------ values with colons

  /** The scan for value `f` takes a row with value `g` for one of its own. */
  predicate Meets(f: string, g: string, id: string) { f + ":" <= g + ":" + id }

  /** The ID under which it then lists that row. */
  function HitOf(f: string, g: string, id: string): string
    requires Meets(f, g, id)
  {
    (g + ":" + id)[|f| + 1..]
  }

  /** That happens exactly when the values agree, when the row's value goes on where the scan's
      ends at a colon, or when the scan's value spans a colon in the row's ID. */
  lemma MeetsIff(f: string, g: string, id: string)
    ensures Meets(f, g, id) <==> g == f || f + ":" <= g || (g + ":" <= f && f[|g| + 1..] + ":" <= id)
    ensures g == f ==> Meets(f, g, id) && HitOf(f, g, id) == id
    ensures f + ":" <= g ==> Meets(f, g, id) && HitOf(f, g, id) == g[|f| + 1..] + ":" + id
  {
    var key := g + ":" + id;
    if Meets(f, g, id) {
      MeetsOnlyIf(f, g, id);
    }
    if g == f {
      assert key == f + ":" + id;
    }
    if f + ":" <= g {
      assert key[..|f| + 1] == g[..|f| + 1];
    }
    if g + ":" <= f && f[|g| + 1..] + ":" <= id {
      assert f == g + ":" + f[|g| + 1..];
      assert key == g + ":" + (f[|g| + 1..] + ":") + id[|f| - |g|..];
      assert key[..|f| + 1] == f + ":";
    }
  }

  lemma MeetsOnlyIf(f: string, g: string, id: string)
    requires Meets(f, g, id)
    ensures g == f || f + ":" <= g || (g + ":" <= f && f[|g| + 1..] + ":" <= id)
  {
    var key := g + ":" + id;
    assert key[..|f|] == f && key[|f|] == ':' && key[..|g|] == g && key[|g|] == ':';
    if |f| < |g| {
      assert g[..|f| + 1] == key[..|f| + 1] == f + ":";
    } else if |g| < |f| {
      assert f[..|g| + 1] == key[..|g| + 1] == g + ":";
      assert id == key[|g| + 1..];
      assert id[..|f| - |g|] == key[|g| + 1..|f| + 1] == f[|g| + 1..] + ":";
    }
  }

  lemma SameKeyIff(e: Entry, t: string, f: string, x: string)
    requires ColonFree(e.tenant) && ColonFree(t)
    ensures EntryKey(e) == ScanPrefix(t, f) + x <==> e.tenant == t && f + ":" + x == e.field + ":" + e.id
  {
    assert ScanPrefix(t, f) + x == t + ":" + (f + ":" + x);
    assert EntryKey(e) == e.tenant + ":" + (e.field + ":" + e.id);
    if EntryKey(e) == ScanPrefix(t, f) + x {
      FirstColonSplits(t, f + ":" + x, e.tenant, e.field + ":" + e.id);
    }
  }

  lemma IndexedIff(keys: seq<string>, entries: map<Key, Entry>, t: string, f: string, x: string)
    requires IsImage(keys, entries) && ColonFree(t)
    ensures ScanPrefix(t, f) + x in keys
       <==> exists p :: p in entries && p.0 == t && f + ":" + x == entries[p].field + ":" + p.1
  {
    var k := ScanPrefix(t, f) + x;
    if k in keys {
      assert HasEntry(entries, k);
      var p :| p in entries && EntryKey(entries[p]) == k;
      SameKeyIff(entries[p], t, f, x);
    }
    if p :| p in entries && p.0 == t && f + ":" + x == entries[p].field + ":" + p.1 {
      SameKeyIff(entries[p], t, f, x);
      assert HasEntry(entries, k);
    }
  }

  /** What a scan lists, whatever the values: one ID for each row of the tenant it meets. */
  lemma ScanFindsIff(keys: seq<string>, entries: map<Key, Entry>, t: string, f: string, x: string)
    requires IsImage(keys, entries) && ColonFree(t)
    ensures x in Ids(keys, ScanPrefix(t, f))
       <==> exists p :: p in entries && p.0 == t && f + ":" + x == entries[p].field + ":" + p.1
  {
    IdsAreExact(keys, ScanPrefix(t, f));
    IndexedIff(keys, entries, t, f, x);
  }

  /** The tenant "t", its schedule "a:b" and an execution "x" of that: the scan for schedule "a"
      meets the entry, and goes on to look for an execution "b:x". */
  lemma ColonInScheduleId()
    ensures ScanPrefix("t", "a") <= IndexKey("t", "a:b", "x") && Meets("a", "a:b", "x")
            && HitOf("a", "a:b", "x") == "b:x"
  {
    assert IndexKey("t", "a:b", "x") == ScanPrefix("t", "a") + "b:x";
    assert "a:b" + ":" + "x" == "a" + ":" + "b:x";
  }
}
