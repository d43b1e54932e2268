/** How a query turns the matching documents of a collection into the list it
    returns: the documents in some order, optionally sorted newest first by a
    timestamp, then skipped and limited. */
module Listing {

  /** No element occurs twice. */
  predicate Distinct<T(==)>(s: seq<T>) {
    forall i, j :: 0 <= i < j < |s| ==> s[i] != s[j]
  }

  /** `s` lists every element of `items` exactly once, in some order. */
  ghost predicate IsListing<T>(s: seq<T>, items: set<T>) {
    (forall i :: 0 <= i < |s| ==> s[i] in items) && (forall x | x in items :: x in s) && Distinct(s)
  }

  /** Ordered by the timestamp `at`, largest (newest) first. */
  ghost predicate NewestFirst<T>(s: seq<T>, at: T -> int) {
    forall i, j :: 0 <= i < j < |s| ==> at(s[i]) >= at(s[j])
  }

  /** A listing has exactly as many entries as the set has members. */
  lemma {:induction false} ListingSize<T>(s: seq<T>, items: set<T>)
    requires IsListing(s, items)
    ensures |s| == |items|
    decreases |s|
  {
    if s != [] {
      var x := s[|s| - 1];
      var rest := s[..|s| - 1];
      forall k | 0 <= k < |rest| ensures rest[k] != x {
        assert rest[k] == s[k];
      }
      forall y | y in items - {x} ensures y in rest {
        var k :| 0 <= k < |s| && s[k] == y;
        assert rest[k] == y;
      }
      assert IsListing(rest, items - {x});
      ListingSize(rest, items - {x});
    }
  }

  /** Inserting a document under a fresh key adds exactly that document to the collection's values. */
  lemma ValuesAfterInsert<K, V>(m: map<K, V>, k: K, v: V)
    requires k !in m && v !in m.Values
    ensures m[k := v].Values == m.Values + {v}
  {
    var after := m[k := v];
    forall x | x in after.Values ensures x in m.Values || x == v {
      var j :| j in after && after[j] == x;
      if j != k {
        assert m[j] == x;
      }
    }
    forall x | x in m.Values ensures x in after.Values {
      var j :| j in m && m[j] == x;
      assert after[j] == x;
    }
    assert after[k] == v;
  }

  /** Removing a key whose document is stored nowhere else removes exactly that document. */
  lemma ValuesAfterRemove<K, V>(m: map<K, V>, k: K)
    requires k in m && m[k] !in (m - {k}).Values
    ensures m.Values == (m - {k}).Values + {m[k]}
  {
    var after := m - {k};
    forall x | x in m.Values ensures x in after.Values || x == m[k] {
      var j :| j in m && m[j] == x;
      if j != k {
        assert after[j] == x;
      }
    }
    forall x | x in after.Values ensures x in m.Values {
      var j :| j in after && after[j] == x;
      assert m[j] == x;
    }
  }

  /** The documents of a set, each once, in whatever order the store yields them. */
  method Enumerate<T(==)>(items: set<T>) returns (s: seq<T>)
    ensures IsListing(s, items)
    ensures |s| == |items|
  {
    s := [];
    var rest := items;
    while rest != {}
      invariant rest <= items
      invariant forall x :: x in s <==> x in items && x !in rest
      invariant Distinct(s)
      decreases |rest|
    {
      var x :| x in rest;
      s := s + [x];
      rest := rest - {x};
    }
    ListingSize(s, items);
  }

  /** Inserts `x` in front of the first element that is strictly older. */
  function InsertNewest<T>(x: T, s: seq<T>, at: T -> int): (r: seq<T>)
    ensures multiset(r) == multiset(s) + multiset{x}
    ensures |r| == |s| + 1
  {
    if s == [] then [x]
    else if at(x) >= at(s[0]) then [x] + s
    else
      assert s == [s[0]] + s[1..];
      [s[0]] + InsertNewest(x, s[1..], at)
  }

  lemma {:induction false} InsertNewestSorted<T>(x: T, s: seq<T>, at: T -> int)
    requires NewestFirst(s, at)
    ensures NewestFirst(InsertNewest(x, s, at), at)
    decreases |s|
  {
    if s != [] && at(x) < at(s[0]) {
      var tail := InsertNewest(x, s[1..], at);
      InsertNewestSorted(x, s[1..], at);
      forall j | 0 <= j < |tail| ensures at(tail[j]) <= at(s[0]) {
        assert tail[j] in multiset(tail);
        if tail[j] != x {
          assert tail[j] in multiset(s[1..]);
          var k :| 0 <= k < |s[1..]| && s[1..][k] == tail[j];
          assert s[k + 1] == tail[j];
        }
      }
      assert InsertNewest(x, s, at) == [s[0]] + tail;
    }
  }

  /** Sort newest first (`$sort: { createdAt: -1 }`); documents with equal
      timestamps keep no particular order. */
  function SortNewestFirst<T>(s: seq<T>, at: T -> int): (r: seq<T>)
    ensures multiset(r) == multiset(s)
    ensures NewestFirst(r, at)
  {
    if s == [] then []
    else
      assert s == [s[0]] + s[1..];
      var sortedTail := SortNewestFirst(s[1..], at);
      InsertNewestSorted(s[0], sortedTail, at);
      InsertNewest(s[0], sortedTail, at)
  }

  /** Sorting a listing of a set yields another listing of that set. */
  lemma SortedListing<T>(s: seq<T>, items: set<T>, at: T -> int)
    requires IsListing(s, items)
    ensures IsListing(SortNewestFirst(s, at), items)
  {
    var r := SortNewestFirst(s, at);
    forall i | 0 <= i < |r| ensures r[i] in items {
      assert r[i] in multiset(r);
      assert r[i] in multiset(s);
    }
    forall x | x in items ensures x in r {
      assert x in multiset(s);
      assert x in multiset(r);
    }
    forall x ensures multiset(r)[x] <= 1 {
      DistinctCount(s, x);
    }
    CountedOnceDistinct(r);
  }

  lemma {:induction false} DistinctCount<T>(s: seq<T>, x: T)
    requires Distinct(s)
    ensures multiset(s)[x] <= 1
    decreases |s|
  {
    if s != [] {
      assert s == [s[0]] + s[1..];
      DistinctCount(s[1..], x);
      if s[0] == x {
        forall k | 0 <= k < |s[1..]| ensures s[1..][k] != x {
          assert s[k + 1] != s[0];
        }
        assert multiset(s[1..])[x] == 0;
      }
    }
  }

  lemma {:induction false} CountedOnceDistinct<T>(r: seq<T>)
    requires forall x :: multiset(r)[x] <= 1
    ensures Distinct(r)
    decreases |r|
  {
    if r != [] {
      assert r == [r[0]] + r[1..];
      assert multiset(r) == multiset{r[0]} + multiset(r[1..]);
      assert multiset(r)[r[0]] <= 1;
      assert multiset(r[1..])[r[0]] == 0;
      forall x ensures multiset(r[1..])[x] <= 1 {
        assert multiset(r)[x] <= 1;
      }
      CountedOnceDistinct(r[1..]);
      forall i, j | 0 <= i < j < |r| ensures r[i] != r[j] {
        assert r[j] == r[1..][j - 1];
        if i > 0 {
          assert r[i] == r[1..][i - 1];
        } else {
          assert r[j] in multiset(r[1..]);
        }
      }
    }
  }

  /** `.skip(skip).limit(take)`: the `take` elements that follow the first `skip`. */
  function Window<T>(s: seq<T>, skip: nat, take: nat): (r: seq<T>)
    ensures |r| == if skip >= |s| then 0 else if take < |s| - skip then take else |s| - skip
    ensures forall i :: 0 <= i < |r| ==> r[i] == s[skip + i]
  {
    if skip >= |s| then []
    else if take < |s| - skip then s[skip..skip + take]
    else s[skip..]
  }

  /** Two adjacent windows make up the window spanning both: consecutive
      pages neither overlap nor leave a gap. */
  lemma WindowSplit<T>(s: seq<T>, skip: nat, a: nat, b: nat)
    ensures Window(s, skip, a) + Window(s, skip + a, b) == Window(s, skip, a + b)
  {
    var left := Window(s, skip, a);
    var right := Window(s, skip + a, b);
    var whole := Window(s, skip, a + b);
    assert |left| + |right| == |whole|;
    forall i | 0 <= i < |whole| ensures (left + right)[i] == whole[i] {
      if i >= |left| {
        assert |left| == a;
        assert (left + right)[i] == right[i - a] == s[skip + i];
      }
    }
  }

  /** `const { page = 1, limit = 10 } = req.query`: the defaults of a paged listing. */
  const DEFAULT_PAGE := 1
  const DEFAULT_LIMIT := 10

  /** The error a negative skip or a non-positive aggregate limit draws from the database. */
  const QUERY_REJECTED := "the database rejected the skip or limit"

  /** `.limit(n)` on a find: 0 means no limit, a negative n returns |n| documents. */
  function FindLimit(limit: int, total: nat): (take: nat)
    ensures limit == 0 ==> take == total
    ensures limit > 0 ==> take == limit
    ensures limit < 0 ==> take == -limit
  {
    if limit == 0 then total else if limit > 0 then limit else -limit
  }

  /** A window of a newest-first list is itself newest first and holds only listed elements. */
  lemma WindowOfSorted<T>(s: seq<T>, skip: nat, take: nat, at: T -> int)
    requires NewestFirst(s, at)
    ensures NewestFirst(Window(s, skip, take), at)
    ensures forall x :: x in Window(s, skip, take) ==> x in s
    ensures Distinct(s) ==> Distinct(Window(s, skip, take))
  {
    var r := Window(s, skip, take);
    forall x | x in r ensures x in s {
      var k :| 0 <= k < |r| && r[k] == x;
      assert s[skip + k] == x;
    }
  }
}
