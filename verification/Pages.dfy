/**
 Prefix scans and cursor pagination (`internal/storage/storage.go`): a scan lists the IDs
 indexed under a prefix in order, and following page cursors lists them too.
 */
module Pages {
  import opened Buckets

  // ------------------------------------------------------------------ the IDs under a prefix

  /** Past the block of keys with the prefix that starts at `n`. */
  function BlockEnd(keys: seq<string>, prefix: string, n: nat): (end: nat)
    requires n <= |keys|
    ensures n <= end <= |keys|
    ensures forall i :: n <= i < end ==> prefix <= keys[i]
    ensures end < |keys| ==> !(prefix <= keys[end])
    decreases |keys| - n
  {
    if n < |keys| && prefix <= keys[n] then BlockEnd(keys, prefix, n + 1) else n
  }

  /** What follows the prefix in the keys that have it, in key order. */
  function Ids(keys: seq<string>, prefix: string): (ids: seq<string>)
    requires Sorted(keys)
    ensures |ids| == BlockEnd(keys, prefix, Seek(keys, prefix)) - Seek(keys, prefix)
  {
    var start := Seek(keys, prefix);
    seq(BlockEnd(keys, prefix, start) - start,
        i requires 0 <= i < BlockEnd(keys, prefix, start) - start => keys[start + i][|prefix|..])
  }

  lemma KeyOfId(keys: seq<string>, prefix: string, i: nat)
    requires Sorted(keys) && i < |Ids(keys, prefix)|
    ensures keys[Seek(keys, prefix) + i] == prefix + Ids(keys, prefix)[i]
  {
    var k := keys[Seek(keys, prefix) + i];
    assert prefix <= k;
    assert k == k[..|prefix|] + k[|prefix|..];
  }

  /** Keys past the block are above everything that has the prefix. */
  lemma {:induction false} PastThePrefix(p: string, k: string, x: string)
    requires !Less(k, p) && !(p <= k)
    ensures Less(p + x, k)
  {
    assert p != [] && Less([], p);
    if p[0] == k[0] {
      PastThePrefix(p[1..], k[1..], x);
      assert (p + x)[1..] == p[1..] + x;
    }
  }

  /** The IDs are in increasing order, and they are exactly the indexed ones. */
  lemma IdsAreExact(keys: seq<string>, prefix: string)
    requires Sorted(keys)
    ensures Sorted(Ids(keys, prefix))
    ensures forall id :: id in Ids(keys, prefix) <==> prefix + id in keys
  {
    var ids, start := Ids(keys, prefix), Seek(keys, prefix);
    forall i, j | 0 <= i < j < |ids|
      ensures Less(ids[i], ids[j])
    {
      KeyOfId(keys, prefix, i);
      KeyOfId(keys, prefix, j);
      assert Less(keys[start + i], keys[start + j]);
      LessAfterPrefix(prefix, ids[i], ids[j]);
    }
    forall id
      ensures id in ids <==> prefix + id in keys
    {
      if id in ids {
        var i :| 0 <= i < |ids| && ids[i] == id;
        KeyOfId(keys, prefix, i);
      }
      if prefix + id in keys {
        IndexedIdIsListed(keys, prefix, id);
      }
    }
  }

  lemma IndexedIdIsListed(keys: seq<string>, prefix: string, id: string)
    requires Sorted(keys) && prefix + id in keys
    ensures id in Ids(keys, prefix)
  {
    var n :| 0 <= n < |keys| && keys[n] == prefix + id;
    var start := Seek(keys, prefix);
    var end := BlockEnd(keys, prefix, start);
    PrefixNotAbove(prefix, prefix + id);
    assert start <= n;
    if end <= n {
      PastThePrefix(prefix, keys[end], id);
      if end < n {
        assert Less(keys[end], keys[n]);
        LessTransitive(keys[end], keys[n], keys[end]);
      }
      LessIrreflexive(keys[end]);
      assert false;
    }
    KeyOfId(keys, prefix, n - start);
    assert (prefix + id)[|prefix|..] == id;
    assert Ids(keys, prefix)[n - start] == id;
  }

  /** The cursor loop of the four list methods. */
  method Scan(keys: seq<string>, prefix: string) returns (ids: seq<string>)
    requires Sorted(keys)
    ensures ids == Ids(keys, prefix)
  {
    var n := Seek(keys, prefix);
    ghost var start := n;
    ids := [];
    while n < |keys| && prefix <= keys[n]
      invariant start <= n <= BlockEnd(keys, prefix, start)
      invariant ids == Ids(keys, prefix)[..n - start]
    {
      ids := ids + [keys[n][|prefix|..]];
      n := n + 1;
    }
  }

  // ------------------------------------------------------------------ one page

  /** The first of the IDs after a cursor; the empty cursor is before them all. */
  function AfterCursor(ids: seq<string>, cursor: string): (n: nat)
    requires Sorted(ids)
    ensures n <= |ids|
  {
    if cursor == "" then 0
    else
      var n := Seek(ids, cursor);
      if n < |ids| && ids[n] == cursor then n + 1 else n
  }

  datatype Page = Page(items: seq<string>, nextCursor: string)

  /** At most `limit` IDs after the cursor; the next cursor is the last of them if more remain. */
  function PageOf(ids: seq<string>, limit: int, cursor: string): Page
    requires Sorted(ids)
  {
    if limit <= 0 then Page([], "")
    else
      var n := AfterCursor(ids, cursor);
      if n + limit < |ids| then Page(ids[n..n + limit], ids[n + limit - 1]) else Page(ids[n..], "")
  }

  /** Seeking a cursor's key lands inside the block or right past it. */
  lemma SeekInBlock(keys: seq<string>, prefix: string, cursor: string)
    requires Sorted(keys)
    ensures Sorted(Ids(keys, prefix))
    ensures Seek(keys, prefix + cursor) == Seek(keys, prefix) + Seek(Ids(keys, prefix), cursor)
  {
    IdsAreExact(keys, prefix);
    var ids, start, m := Ids(keys, prefix), Seek(keys, prefix), Seek(Ids(keys, prefix), cursor);
    var n := Seek(keys, prefix + cursor);
    if n < start + m {
      NotBeforeCursor(keys, prefix, cursor, n);
    } else if start + m < n {
      if m < |ids| {
        KeyOfId(keys, prefix, m);
        LessAfterPrefix(prefix, ids[m], cursor);
      } else {
        PastThePrefix(prefix, keys[start + m], cursor);
        LessTransitive(prefix + cursor, keys[start + m], prefix + cursor);
        LessIrreflexive(prefix + cursor);
      }
    }
  }

  lemma NotBeforeCursor(keys: seq<string>, prefix: string, cursor: string, n: nat)
    requires Sorted(keys) && Sorted(Ids(keys, prefix))
    requires n < Seek(keys, prefix) + Seek(Ids(keys, prefix), cursor)
    ensures Less(keys[n], prefix + cursor)
  {
    var ids, start := Ids(keys, prefix), Seek(keys, prefix);
    if n < start {
      if cursor == "" {
        assert prefix + cursor == prefix;
      } else {
        LessExtended(prefix, cursor);
        LessTransitive(keys[n], prefix, prefix + cursor);
      }
    } else {
      KeyOfId(keys, prefix, n - start);
      LessAfterPrefix(prefix, ids[n - start], cursor);
    }
  }

  lemma LessExtended(p: string, x: string)
    requires x != ""
    ensures Less(p, p + x)
  {
    LessAfterPrefix(p, "", x);
    assert p + "" == p;
  }

  /** Where a page starts: past the cursor's own key if it is still there. */
  function PageStart(keys: seq<string>, prefix: string, cursor: string): (n: nat)
    requires Sorted(keys)
    ensures n <= |keys|
  {
    var startKey := if cursor == "" then prefix else prefix + cursor;
    var n := Seek(keys, startKey);
    if cursor != "" && n < |keys| && keys[n] == startKey then n + 1 else n
  }

  lemma CursorKey(keys: seq<string>, prefix: string, cursor: string, m: nat)
    requires Sorted(keys) && m <= |Ids(keys, prefix)|
    ensures var n := Seek(keys, prefix) + m;
            (n < |keys| && keys[n] == prefix + cursor) <==> (m < |Ids(keys, prefix)| && Ids(keys, prefix)[m] == cursor)
  {
    var ids, n := Ids(keys, prefix), Seek(keys, prefix) + m;
    if m < |ids| {
      KeyOfId(keys, prefix, m);
      assert (prefix + ids[m])[|prefix|..] == ids[m] && (prefix + cursor)[|prefix|..] == cursor;
    } else if n < |keys| {
      assert prefix <= prefix + cursor;
    }
  }

  lemma PageStartInBlock(keys: seq<string>, prefix: string, cursor: string)
    requires Sorted(keys)
    ensures Sorted(Ids(keys, prefix))
    ensures PageStart(keys, prefix, cursor) == Seek(keys, prefix) + AfterCursor(Ids(keys, prefix), cursor)
  {
    IdsAreExact(keys, prefix);
    if cursor != "" {
      PageStartPastCursor(keys, prefix, cursor, Seek(Ids(keys, prefix), cursor));
    }
  }

  lemma PageStartPastCursor(keys: seq<string>, prefix: string, cursor: string, m: nat)
    requires Sorted(keys) && cursor != "" && Sorted(Ids(keys, prefix)) && m == Seek(Ids(keys, prefix), cursor)
    ensures PageStart(keys, prefix, cursor) == Seek(keys, prefix) + AfterCursor(Ids(keys, prefix), cursor)
  {
    var start := Seek(keys, prefix);
    var here := m < |Ids(keys, prefix)| && Ids(keys, prefix)[m] == cursor;
    assert PageStart(keys, prefix, cursor) == start + (if here then m + 1 else m) by {
      SeekInBlock(keys, prefix, cursor);
      CursorKey(keys, prefix, cursor, m);
    }
  }

  /** The block of keys with the prefix, and what follows the prefix in them. */
  ghost predicate IsBlock(keys: seq<string>, prefix: string, start: nat, all: seq<string>) {
    && start + |all| <= |keys|
    && (forall i :: start <= i < start + |all| ==> prefix <= keys[i] && all[i - start] == keys[i][|prefix|..])
    && (start + |all| < |keys| ==> !(prefix <= keys[start + |all|]))
  }

  /** A block ends where its prefix does. */
  lemma BlockIs(keys: seq<string>, prefix: string, start: nat, all: seq<string>)
    requires start <= |keys| && start + |all| == BlockEnd(keys, prefix, start)
    requires forall i :: 0 <= i < |all| ==> all[i] == keys[start + i][|prefix|..]
    ensures IsBlock(keys, prefix, start, all)
  {
    forall i | start <= i < start + |all|
      ensures prefix <= keys[i] && all[i - start] == keys[i][|prefix|..]
    {
      assert all[i - start] == keys[start + (i - start)][|prefix|..];
    }
  }

  lemma IdsAreBlock(keys: seq<string>, prefix: string)
    requires Sorted(keys)
    ensures IsBlock(keys, prefix, Seek(keys, prefix), Ids(keys, prefix))
  {
    BlockIs(keys, prefix, Seek(keys, prefix), Ids(keys, prefix));
  }

  /** At most `limit` IDs from position `n` on, and a cursor if that is not all of them. */
  function Cut(all: seq<string>, n: nat, limit: nat): Page
    requires n <= |all| && limit > 0
  {
    if n + limit < |all| then Page(all[n..n + limit], all[n + limit - 1]) else Page(all[n..], "")
  }

  /** The cursor loop of the four Page methods, from the `first` ID of the block on, until the
      block ends or one more ID is found than the page holds. */
  method CollectPage(keys: seq<string>, prefix: string, from: nat, limit: nat, ghost start: nat, ghost all: seq<string>,
                     ghost first: nat)
    returns (ids: seq<string>, nextCursor: string)
    requires limit > 0 && IsBlock(keys, prefix, start, all) && first <= |all| && from == start + first
    ensures Page(ids, nextCursor) == Cut(all, first, limit)
  {
    ids, nextCursor := [], "";
    var n := from;
    while n < |keys| && prefix <= keys[n]
      invariant from <= n <= start + |all|
      invariant |ids| <= limit && ids == all[first..n - start]
    {
      if |ids| == limit {
        nextCursor := ids[|ids| - 1];
        break;
      }
      ids := ids + [keys[n][|prefix|..]];
      n := n + 1;
    }
  }

  lemma CutIsPage(all: seq<string>, limit: nat, cursor: string)
    requires Sorted(all) && limit > 0
    ensures Cut(all, AfterCursor(all, cursor), limit) == PageOf(all, limit, cursor)
  {
  }

  /** The page asked for lies in the block of keys, from where the cursor's seek leads. */
  lemma PageInBlock(keys: seq<string>, prefix: string, cursor: string, limit: nat)
      returns (start: nat, all: seq<string>, first: nat)
    requires Sorted(keys) && limit > 0
    ensures IsBlock(keys, prefix, start, all) && first <= |all| && PageStart(keys, prefix, cursor) == start + first
    ensures Sorted(Ids(keys, prefix)) && Cut(all, first, limit) == PageOf(Ids(keys, prefix), limit, cursor)
  {
    PageStartInBlock(keys, prefix, cursor);
    IdsAreBlock(keys, prefix);
    start, all, first := Seek(keys, prefix), Ids(keys, prefix), AfterCursor(Ids(keys, prefix), cursor);
    CutIsPage(all, limit, cursor);
  }

  method ScanPage(keys: seq<string>, prefix: string, limit: int, cursor: string)
      returns (ids: seq<string>, nextCursor: string)
    requires Sorted(keys)
    ensures Sorted(Ids(keys, prefix)) && Page(ids, nextCursor) == PageOf(Ids(keys, prefix), limit, cursor)
  {
    if limit <= 0 {
      IdsAreExact(keys, prefix);
      return [], "";
    }
    ghost var start, all, first := PageInBlock(keys, prefix, cursor, limit);
    ids, nextCursor := CollectPage(keys, prefix, PageStart(keys, prefix, cursor), limit, start, all, first);
  }

  // ------------------------------------------------------------------ walking the pages

  ghost predicate Past(cursor: string, id: string) { cursor == "" || Less(cursor, id) }

  /** The IDs after a cursor are exactly those past it. */
  lemma AfterCursorSplits(ids: seq<string>, cursor: string, i: nat)
    requires Sorted(ids) && i < |ids|
    ensures AfterCursor(ids, cursor) <= i <==> Past(cursor, ids[i])
  {
    if cursor != "" {
      var n := Seek(ids, cursor);
      if i < n {
        if Less(cursor, ids[i]) {
          LessTransitive(cursor, ids[i], cursor);
          LessIrreflexive(cursor);
        }
      } else {
        LessTotal(cursor, ids[i]);
        LessIrreflexive(cursor);
        if ids[i] == cursor {
          AtCursor(ids, cursor, n, i);
        } else if ids[n] == cursor && n == i {
          assert false;
        }
      }
    }
  }

  lemma AtCursor(ids: seq<string>, cursor: string, n: nat, i: nat)
    requires Sorted(ids) && n == Seek(ids, cursor) && n <= i < |ids| && ids[i] == cursor
    ensures n == i
  {
    SortedAt(ids, n, i);
  }

  lemma CursorAdvances(ids: seq<string>, i: nat)
    requires Sorted(ids) && i < |ids| && ids[i] != ""
    ensures AfterCursor(ids, ids[i]) == i + 1
  {
    AfterCursorSplits(ids, ids[i], i);
    LessIrreflexive(ids[i]);
    if i + 1 < |ids| {
      AfterCursorSplits(ids, ids[i], i + 1);
    }
  }

  function Concat(pages: seq<Page>): seq<string> {
    if pages == [] then [] else pages[0].items + Concat(pages[1..])
  }

  /** The pages a client gets by following next cursors over unchanging IDs. */
  ghost function Walk(ids: seq<string>, limit: int, cursor: string): seq<Page>
    requires Sorted(ids) && "" !in ids && limit >= 1
    decreases |ids| - AfterCursor(ids, cursor)
  {
    var page := PageOf(ids, limit, cursor);
    if page.nextCursor == "" then [page]
    else
      CursorAdvances(ids, AfterCursor(ids, cursor) + limit - 1);
      [page] + Walk(ids, limit, page.nextCursor)
  }

  lemma PageAdvances(ids: seq<string>, limit: int, cursor: string)
    requires Sorted(ids) && "" !in ids && limit >= 1
    ensures var n, page := AfterCursor(ids, cursor), PageOf(ids, limit, cursor);
            if page.nextCursor == "" then page.items == ids[n..]
            else n + limit < |ids| && page.items == ids[n..n + limit] && AfterCursor(ids, page.nextCursor) == n + limit
  {
    var n := AfterCursor(ids, cursor);
    if n + limit < |ids| {
      assert ids[n + limit - 1] in ids;
      CursorAdvances(ids, n + limit - 1);
    }
  }

  lemma ConcatCons(page: Page, rest: seq<Page>)
    ensures Concat([page] + rest) == page.items + Concat(rest)
  {
    assert ([page] + rest)[1..] == rest;
  }

  lemma WalkStep(ids: seq<string>, limit: int, cursor: string)
    requires Sorted(ids) && "" !in ids && limit >= 1
    ensures var page := PageOf(ids, limit, cursor);
            Walk(ids, limit, cursor)
            == if page.nextCursor == "" then [page] else [page] + Walk(ids, limit, page.nextCursor)
  {
  }

  /** Following cursors from the empty one ends and lists every ID, in order, once. */
  lemma {:induction false} WalkListsEverything(ids: seq<string>, limit: int, cursor: string)
    requires Sorted(ids) && "" !in ids && limit >= 1
    ensures Concat(Walk(ids, limit, cursor)) == ids[AfterCursor(ids, cursor)..]
    decreases |ids| - AfterCursor(ids, cursor)
  {
    var n, page := AfterCursor(ids, cursor), PageOf(ids, limit, cursor);
    PageAdvances(ids, limit, cursor);
    WalkStep(ids, limit, cursor);
    if page.nextCursor == "" {
      ConcatCons(page, []);
    } else {
      WalkListsEverything(ids, limit, page.nextCursor);
      ConcatCons(page, Walk(ids, limit, page.nextCursor));
      assert ids[n..n + limit] + ids[n + limit..] == ids[n..];
    }
  }

  lemma {:induction false} WalkPagesAreBounded(ids: seq<string>, limit: int, cursor: string)
    requires Sorted(ids) && "" !in ids && limit >= 1
    ensures forall i :: 0 <= i < |Walk(ids, limit, cursor)| ==> |Walk(ids, limit, cursor)[i].items| <= limit
    decreases |ids| - AfterCursor(ids, cursor)
  {
    var page := PageOf(ids, limit, cursor);
    PageAdvances(ids, limit, cursor);
    if page.nextCursor != "" {
      WalkPagesAreBounded(ids, limit, page.nextCursor);
      var rest := Walk(ids, limit, page.nextCursor);
      assert Walk(ids, limit, cursor) == [page] + rest;
    }
  }

  /** The next cursor is empty exactly when nothing remains after the page. */
  lemma LastPage(ids: seq<string>, limit: int, cursor: string)
    requires Sorted(ids) && "" !in ids && limit >= 1
    ensures PageOf(ids, limit, cursor).nextCursor == ""
            <==> PageOf(ids, limit, cursor).items == ids[AfterCursor(ids, cursor)..]
  {
    var n := AfterCursor(ids, cursor);
    if n + limit < |ids| {
      assert ids[n + limit - 1] in ids;
      assert |ids[n..n + limit]| < |ids[n..]|;
    }
  }

  // ------------------------------------------------------------------ walking while the index changes

  /** A finished walk: each page was read from the snapshot of the index at that time, from the
      cursor the page before gave. */
  ghost predicate FinishedWalk(snapshots: seq<seq<string>>, limit: int, cursor: string, pages: seq<Page>) {
    && |pages| == |snapshots| > 0 && limit >= 1
    && Sorted(snapshots[0]) && "" !in snapshots[0]
    && pages[0] == PageOf(snapshots[0], limit, cursor)
    && if pages[0].nextCursor == "" then |pages| == 1
       else |pages| > 1 && FinishedWalk(snapshots[1..], limit, pages[0].nextCursor, pages[1..])
  }

  /** One page: increasing, past the cursor, and up to the next cursor if there is one. */
  lemma PageItems(ids: seq<string>, limit: int, cursor: string, x: string)
    requires Sorted(ids) && "" !in ids && limit >= 1
    ensures var page := PageOf(ids, limit, cursor);
            && (x in page.items ==> x in ids && Past(cursor, x))
            && (x in ids && Past(cursor, x) ==> x in page.items || (page.nextCursor != "" && Less(page.nextCursor, x)))
  {
    var n, page := AfterCursor(ids, cursor), PageOf(ids, limit, cursor);
    if x in page.items {
      var i :| 0 <= i < |page.items| && page.items[i] == x;
      AfterCursorSplits(ids, cursor, n + i);
    }
    if x in ids && Past(cursor, x) {
      var i :| 0 <= i < |ids| && ids[i] == x;
      AfterCursorSplits(ids, cursor, i);
      if n + limit < |ids| && n + limit <= i {
        assert Less(ids[n + limit - 1], ids[i]);
      } else {
        assert page.items[i - n] == x;
      }
    }
  }

  /** Everything in a page comes before everything past its next cursor. */
  lemma PageThenRest(ids: seq<string>, limit: int, cursor: string, rest: seq<string>)
    requires Sorted(ids) && "" !in ids && limit >= 1 && Sorted(rest)
    requires PageOf(ids, limit, cursor).nextCursor != ""
    requires forall x :: x in rest ==> Less(PageOf(ids, limit, cursor).nextCursor, x)
    ensures Sorted(PageOf(ids, limit, cursor).items + rest)
  {
    var page := PageOf(ids, limit, cursor);
    var all := page.items + rest;
    forall i, j | 0 <= i < j < |all|
      ensures Less(all[i], all[j])
    {
      if i < |page.items| <= j {
        assert all[j] in rest;
        if i < |page.items| - 1 {
          LessTransitive(all[i], page.nextCursor, all[j]);
        }
      }
    }
  }

  /** Whatever happens to the index between pages, a finished walk lists increasing IDs, hence
      none twice, and every ID that was indexed at every page read. */
  lemma {:induction false} ChangingWalk(snapshots: seq<seq<string>>, limit: int, cursor: string, pages: seq<Page>)
    requires FinishedWalk(snapshots, limit, cursor, pages)
    ensures Sorted(Concat(pages))
    ensures forall x :: x in Concat(pages) ==> Past(cursor, x)
    ensures forall x :: Past(cursor, x) && (forall i :: 0 <= i < |snapshots| ==> x in snapshots[i]) ==>
                          x in Concat(pages)
    decreases |pages|
  {
    var page, next := pages[0], pages[0].nextCursor;
    forall x {
      PageItems(snapshots[0], limit, cursor, x);
    }
    if |pages| == 1 {
      assert Concat(pages) == page.items + Concat([]) == page.items;
    } else {
      ChangingWalk(snapshots[1..], limit, next, pages[1..]);
      PageThenRest(snapshots[0], limit, cursor, Concat(pages[1..]));
      CursorIsPast(snapshots[0], limit, cursor);
      forall x | x in Concat(pages) ensures Past(cursor, x) {
        if x !in page.items {
          assert x in Concat(pages[1..]);
          if cursor != "" { LessTransitive(cursor, next, x); }
        }
      }
      forall x | Past(cursor, x) && (forall i :: 0 <= i < |snapshots| ==> x in snapshots[i])
        ensures x in Concat(pages)
      {
        assert x in snapshots[0];
        if x !in page.items {
          assert forall i :: 0 <= i < |snapshots[1..]| ==> x in snapshots[1..][i];
        }
      }
    }
  }

  lemma CursorIsPast(ids: seq<string>, limit: int, cursor: string)
    requires Sorted(ids) && limit >= 1 && PageOf(ids, limit, cursor).nextCursor != ""
    ensures Past(cursor, PageOf(ids, limit, cursor).nextCursor)
  {
    AfterCursorSplits(ids, cursor, AfterCursor(ids, cursor) + limit - 1);
  }
}
