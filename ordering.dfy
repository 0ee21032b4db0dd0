/**
 * Row selection and `ORDER BY <key> DESC` over in-memory tables: the
 * pieces from which the SQL queries of the account store, the transaction
 * log and the scheduled-payment store are modelled.
 */
module Ordering {
  import opened Wrappers

  /**
   * `WHERE p`: the rows satisfying `p`; `FilterCounts` shows each comes as often as
   * the table holds it, `FilterAppend` that they keep the table's order.
   */
  function Filter<T(==)>(s: seq<T>, p: T -> bool): (r: seq<T>)
    ensures |r| <= |s|
    ensures forall i :: 0 <= i < |r| ==> r[i] in s && p(r[i])
    ensures forall i :: 0 <= i < |s| && p(s[i]) ==> s[i] in r
  {
    if s == [] then []
    else if p(s[0]) then [s[0]] + Filter(s[1..], p)
    else Filter(s[1..], p)
  }

  /** Each selected row occurs as often as in the table, every other row not at all. */
  lemma {:induction false} FilterCounts<T>(s: seq<T>, p: T -> bool, x: T)
    ensures multiset(Filter(s, p))[x] == if p(x) then multiset(s)[x] else 0
  {
    if s != [] {
      assert s == [s[0]] + s[1..];
      FilterCounts(s[1..], p, x);
    }
  }

  /** Selecting from two tables laid end to end selects from each in turn: the order is kept. */
  lemma {:induction false} FilterAppend<T>(a: seq<T>, b: seq<T>, p: T -> bool)
    ensures Filter(a + b, p) == Filter(a, p) + Filter(b, p)
  {
    if a == [] {
      assert a + b == b;
    } else {
      assert (a + b)[0] == a[0] && (a + b)[1..] == a[1..] + b;
      FilterAppend(a[1..], b, p);
    }
  }

  /** The first row satisfying `p`, as `rows[0]` of a `SELECT ... WHERE p` reads it. */
  function First<T(==)>(s: seq<T>, p: T -> bool): (r: Option<T>)
    ensures r.Some? ==> r.value in s && p(r.value)
    ensures r.None? ==> forall i :: 0 <= i < |s| ==> !p(s[i])
  {
    if s == [] then None
    else if p(s[0]) then Some(s[0])
    else First(s[1..], p)
  }

  /** The number of rows satisfying `p`: what `COUNT(*)` with the same `WHERE` returns. */
  function Count<T>(s: seq<T>, p: T -> bool): nat {
    if s == [] then 0
    else (if p(s[0]) then 1 else 0) + Count(s[1..], p)
  }

  lemma {:induction false} CountIsFilterLength<T>(s: seq<T>, p: T -> bool)
    ensures Count(s, p) == |Filter(s, p)|
  {
    if s != [] {
      CountIsFilterLength(s[1..], p);
    }
  }

  /** Counting with pointwise-equal conditions gives the same number. */
  lemma {:induction false} CountSame<T>(s: seq<T>, p: T -> bool, q: T -> bool)
    requires forall x :: p(x) == q(x)
    ensures Count(s, p) == Count(s, q)
  {
    if s != [] {
      CountSame(s[1..], p, q);
    }
  }

  /** A table whose keys are all different holds each row at most once. */
  lemma {:induction false} DistinctKeysOnce<T>(s: seq<T>, key: T -> int, x: T)
    requires forall i, j :: 0 <= i < j < |s| ==> key(s[i]) != key(s[j])
    ensures multiset(s)[x] <= 1
  {
    if s != [] {
      assert s == [s[0]] + s[1..];
      DistinctKeysOnce(s[1..], key, x);
      if s[0] == x {
        assert forall k :: 0 <= k < |s[1..]| ==> s[1..][k] == s[k + 1];
        assert x !in s[1..];
      }
    }
  }

  /** Rows drawn from a table with all keys different (each at most as often) again have all keys different. */
  lemma {:induction false} SubmultisetDistinct<T>(s: seq<T>, r: seq<T>, key: T -> int)
    requires multiset(r) <= multiset(s)
    requires forall i, j :: 0 <= i < j < |s| ==> key(s[i]) != key(s[j])
    ensures forall i, j :: 0 <= i < j < |r| ==> key(r[i]) != key(r[j])
  {
    if r != [] {
      var front := r[..|r| - 1];
      var x := r[|r| - 1];
      assert r == front + [x];
      SubmultisetDistinct(s, front, key);
      forall i | 0 <= i < |front| ensures key(front[i]) != key(x) {
        if key(front[i]) == key(x) {
          assert front[i] in multiset(s) && x in multiset(s);
          var a :| 0 <= a < |s| && s[a] == front[i];
          var b :| 0 <= b < |s| && s[b] == x;
          assert a == b;
          assert front[i] == x;
          assert multiset(r)[x] == multiset(front)[x] + 1;
          DistinctKeysOnce(s, key, x);
        }
      }
    }
  }

  predicate SortedDesc<T>(s: seq<T>, key: T -> int) {
    forall i, j :: 0 <= i < j < |s| ==> key(s[i]) >= key(s[j])
  }

  /** Inserting `x` into a descending sequence in front of the first key not above its own. */
  function Insert<T(==)>(x: T, s: seq<T>, key: T -> int): (r: seq<T>)
    requires SortedDesc(s, key)
    ensures SortedDesc(r, key)
    ensures multiset(r) == multiset(s) + multiset{x}
  {
    if s == [] then [x]
    else if key(x) >= key(s[0]) then [x] + s
    else
      var rest := Insert(x, s[1..], key);
      assert s == [s[0]] + s[1..];
      ConsSorted(s[0], s[1..], x, rest, key);
      [s[0]] + rest
  }

  /** A head that tops both the old tail and the inserted row tops the new tail. */
  lemma ConsSorted<T>(h: T, u: seq<T>, x: T, rest: seq<T>, key: T -> int)
    requires SortedDesc([h] + u, key) && key(x) < key(h)
    requires SortedDesc(rest, key) && multiset(rest) == multiset(u) + multiset{x}
    ensures SortedDesc([h] + rest, key)
  {
    var r := [h] + rest;
    forall i, j | 0 <= i < j < |r| ensures key(r[i]) >= key(r[j]) {
      if i == 0 {
        var y := rest[j - 1];
        assert r[0] == h && r[j] == y;
        assert y in multiset(rest);
        if y != x {
          assert y in multiset(u);
          var k :| 0 <= k < |u| && u[k] == y;
          assert ([h] + u)[0] == h && ([h] + u)[k + 1] == y;
        }
      } else {
        assert r[i] == rest[i - 1] && r[j] == rest[j - 1];
      }
    }
  }

  /** `ORDER BY key DESC`: a permutation of the rows, largest key first. */
  function SortDesc<T(==)>(s: seq<T>, key: T -> int): (r: seq<T>)
    ensures SortedDesc(r, key)
    ensures multiset(r) == multiset(s)
  {
    if s == [] then []
    else
      assert s == [s[0]] + s[1..];
      Insert(s[0], SortDesc(s[1..], key), key)
  }

  lemma SortDescLength<T>(s: seq<T>, key: T -> int)
    ensures |SortDesc(s, key)| == |s|
  {
    assert |multiset(SortDesc(s, key))| == |multiset(s)|;
  }

  lemma SortDescMembers<T>(s: seq<T>, key: T -> int, x: T)
    ensures x in SortDesc(s, key) <==> x in s
  {
    assert x in multiset(SortDesc(s, key)) <==> x in multiset(s);
  }

  /** `WHERE p ORDER BY key DESC` holds exactly the selected rows. */
  lemma SelectSortedMembers<T>(s: seq<T>, p: T -> bool, key: T -> int)
    ensures forall x :: x in SortDesc(Filter(s, p), key) <==> x in s && p(x)
  {
    forall x ensures x in SortDesc(Filter(s, p), key) <==> x in s && p(x) {
      SortDescMembers(Filter(s, p), key, x);
    }
  }

  /** How many of `n` rows a `LIMIT limit OFFSET offset` window holds. */
  function PageLength(n: nat, limit: nat, offset: nat): nat {
    if offset >= n then 0 else if n - offset < limit then n - offset else limit
  }

  /** `LIMIT limit OFFSET offset`, where a zero `limit` or `offset` is the clause left out. */
  function Paginate<T>(s: seq<T>, limit: nat, offset: nat): (r: seq<T>)
    ensures limit == 0 ==> r == s
    ensures limit > 0 ==> |r| == PageLength(|s|, limit, offset) && |r| <= limit
    ensures limit > 0 ==> forall i :: 0 <= i < |r| ==> offset + i < |s| && r[i] == s[offset + i]
  {
    if limit == 0 then s
    else
      var rest := if offset < |s| then s[offset..] else [];
      if |rest| <= limit then rest else rest[..limit]
  }

  /** A page is a window of the rows: it keeps their order and invents none. */
  lemma PaginateWindow<T>(s: seq<T>, limit: nat, offset: nat, key: T -> int)
    ensures forall i :: 0 <= i < |Paginate(s, limit, offset)| ==> Paginate(s, limit, offset)[i] in s
    ensures SortedDesc(s, key) ==> SortedDesc(Paginate(s, limit, offset), key)
  {
    var r := Paginate(s, limit, offset);
    if limit > 0 && SortedDesc(s, key) {
      forall i, j | 0 <= i < j < |r| ensures key(r[i]) >= key(r[j]) {
        assert r[i] == s[offset + i] && r[j] == s[offset + j];
      }
    }
  }
}
