/**
 A bbolt bucket's keys: byte strings in strictly increasing order, with the insertion,
 deletion and cursor operations the storage layer uses.
 */
module Buckets {

  /** Byte-wise order; a proper prefix comes first. */
  predicate Less(a: string, b: string) {
    b != [] && (a == [] || a[0] < b[0] || (a[0] == b[0] && Less(a[1..], b[1..])))
  }

  lemma {:induction false} LessIrreflexive(a: string)
    ensures !Less(a, a)
  {
    if a != [] {
      LessIrreflexive(a[1..]);
    }
  }

  lemma {:induction false} LessTransitive(a: string, b: string, c: string)
    requires Less(a, b) && Less(b, c)
    ensures Less(a, c)
  {
    if a != [] && a[0] == b[0] == c[0] {
      LessTransitive(a[1..], b[1..], c[1..]);
    }
  }

  lemma {:induction false} LessTotal(a: string, b: string)
    ensures Less(a, b) || a == b || Less(b, a)
  {
    if a != [] && b != [] && a[0] == b[0] {
      LessTotal(a[1..], b[1..]);
      if a[1..] == b[1..] {
        assert a == [a[0]] + a[1..] && b == [b[0]] + b[1..];
      }
    }
  }

  /** A common prefix does not change the order. */
  lemma {:induction false} LessAfterPrefix(p: string, a: string, b: string)
    ensures Less(p + a, p + b) <==> Less(a, b)
  {
    if p == [] {
      assert p + a == a && p + b == b;
    } else {
      LessAfterPrefix(p[1..], a, b);
      assert (p + a)[1..] == p[1..] + a && (p + b)[1..] == p[1..] + b;
    }
  }

  /** The keys with a given prefix are contiguous: past a larger key without it there are none. */
  lemma {:induction false} PrefixIsContiguous(p: string, k: string, later: string)
    requires !Less(k, p) && !(p <= k) && Less(k, later)
    ensures !(p <= later)
  {
    if p == [] || k == [] {
    } else if p[0] == k[0] {
      if later != [] && later[0] == k[0] {
        PrefixIsContiguous(p[1..], k[1..], later[1..]);
      }
    }
  }

  /** A key with the prefix is not below it. */
  lemma {:induction false} PrefixNotAbove(p: string, k: string)
    requires p <= k
    ensures !Less(k, p)
  {
    if p != [] {
      PrefixNotAbove(p[1..], k[1..]);
    }
  }

  ghost predicate Sorted(keys: seq<string>) {
    forall i, j :: 0 <= i < j < |keys| ==> Less(keys[i], keys[j])
  }

  lemma SortedDistinct(keys: seq<string>, i: int, j: int)
    requires Sorted(keys) && 0 <= i < |keys| && 0 <= j < |keys| && keys[i] == keys[j]
    ensures i == j
  {
    LessIrreflexive(keys[i]);
  }

  /** Where a cursor's Seek lands: the first key not below `from`. */
  function Seek(keys: seq<string>, from: string): (n: nat)
    requires Sorted(keys)
    ensures n <= |keys|
    ensures forall i :: 0 <= i < n ==> Less(keys[i], from)
    ensures forall i :: n <= i < |keys| ==> !Less(keys[i], from)
  {
    if keys == [] then 0
    else if Less(keys[0], from) then
      var n := Seek(keys[1..], from);
      assert forall i :: 1 <= i < |keys| ==> keys[i] == keys[1..][i - 1];
      n + 1
    else
      NoneBelow(keys, from);
      0
  }

  lemma NoneBelow(keys: seq<string>, from: string)
    requires Sorted(keys) && keys != [] && !Less(keys[0], from)
    ensures forall i :: 0 <= i < |keys| ==> !Less(keys[i], from)
  {
    forall i | 0 <= i < |keys|
      ensures !Less(keys[i], from)
    {
      if i > 0 && Less(keys[i], from) {
        LessTransitive(keys[0], keys[i], from);
      }
    }
  }

  /** Put under a key that may already be there. */
  function Insert(keys: seq<string>, k: string): (r: seq<string>)
    requires Sorted(keys)
    ensures Sorted(r)
    ensures forall x :: x in r <==> x in keys || x == k
  {
    var n := Seek(keys, k);
    if n < |keys| && keys[n] == k then keys
    else
      InsertSorted(keys, n, k);
      var r := keys[..n] + [k] + keys[n..];
      assert keys == keys[..n] + keys[n..];
      r
  }

  lemma InsertSorted(keys: seq<string>, n: nat, k: string)
    requires Sorted(keys) && n == Seek(keys, k) && !(n < |keys| && keys[n] == k)
    ensures Sorted(keys[..n] + [k] + keys[n..])
  {
    var r := keys[..n] + [k] + keys[n..];
    if n < |keys| {
      LessTotal(k, keys[n]);
    }
    forall i, j | 0 <= i < j < |r|
      ensures Less(r[i], r[j])
    {
      if i == n && j > n + 1 {
        LessTransitive(k, keys[n], keys[j - 1]);
      } else if i < n && j > n {
        assert r[j] == keys[j - 1];
      }
    }
  }

  function Delete(keys: seq<string>, k: string): (r: seq<string>)
    requires Sorted(keys)
    ensures Sorted(r)
    ensures forall x :: x in r <==> x in keys && x != k
  {
    var n := Seek(keys, k);
    if n < |keys| && keys[n] == k then
      DeleteRemoves(keys, n, k);
      keys[..n] + keys[n + 1..]
    else
      DeleteAbsent(keys, n, k);
      keys
  }

  lemma DeleteRemoves(keys: seq<string>, n: nat, k: string)
    requires Sorted(keys) && n < |keys| && keys[n] == k
    ensures var r := keys[..n] + keys[n + 1..];
            Sorted(r) && forall x :: x in r <==> x in keys && x != k
  {
    var r := keys[..n] + keys[n + 1..];
    forall x ensures x in r <==> x in keys && x != k {
      if x in r {
        var i :| 0 <= i < |r| && r[i] == x;
        var j := if i < n then i else i + 1;
        assert keys[j] == x;
        if x == k {
          SortedDistinct(keys, j, n);
        }
      }
      if x in keys && x != k {
        var j :| 0 <= j < |keys| && keys[j] == x;
        assert r[if j < n then j else j - 1] == x;
      }
    }
  }

  lemma DeleteAbsent(keys: seq<string>, n: nat, k: string)
    requires Sorted(keys) && n == Seek(keys, k) && !(n < |keys| && keys[n] == k)
    ensures k !in keys
  {
    LessIrreflexive(k);
    forall i | 0 <= i < |keys|
      ensures keys[i] != k
    {
      if n < i {
        assert Less(keys[n], keys[i]) && !Less(keys[n], k);
      }
    }
  }

  lemma HeadIsIn(keys: seq<string>)
    ensures keys == [] || keys[0] in keys
  {
  }

  lemma SortedAt(keys: seq<string>, i: nat, j: nat)
    requires Sorted(keys)
    ensures i < j < |keys| ==> Less(keys[i], keys[j])
  {
  }

  /** Sorted key lists with the same members are equal. */
  lemma {:induction false} SortedUnique(a: seq<string>, b: seq<string>)
    requires Sorted(a) && Sorted(b) && forall x :: x in a <==> x in b
    ensures a == b
  {
    if a == [] {
      HeadIsIn(b);
    } else {
      assert a[0] in b && b != [];
      assert b[0] in a;
      var i :| 0 <= i < |b| && b[i] == a[0];
      var j :| 0 <= j < |a| && a[j] == b[0];
      SameHead(a, b, i, j);
      forall x ensures x in a[1..] <==> x in b[1..] {
        TailMembers(a, x);
        TailMembers(b, x);
      }
      SortedUnique(a[1..], b[1..]);
      assert a == [a[0]] + a[1..] && b == [b[0]] + b[1..];
    }
  }

  lemma SameHead(a: seq<string>, b: seq<string>, i: nat, j: nat)
    requires Sorted(a) && Sorted(b) && i < |b| && j < |a| && b[i] == a[0] && a[j] == b[0]
    ensures a[0] == b[0]
  {
    if i > 0 && j > 0 {
      assert Less(b[0], b[i]) && Less(a[0], a[j]);
      LessTransitive(a[0], b[0], a[0]);
      LessIrreflexive(a[0]);
    }
  }

  lemma TailMembers(a: seq<string>, x: string)
    requires Sorted(a) && a != []
    ensures x in a[1..] <==> x in a && x != a[0]
  {
    if x in a[1..] {
      var i :| 0 <= i < |a| - 1 && a[1..][i] == x;
      assert a[i + 1] == x;
      if x == a[0] { SortedDistinct(a, 0, i + 1); }
    }
    if x in a && x != a[0] {
      var i :| 0 <= i < |a| && a[i] == x;
      assert a[1..][i - 1] == x;
    }
  }
}
