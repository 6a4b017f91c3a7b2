/**
 * The `ORDER BY <key> DESC` and `PageRequest.of(0, size)` parts of the JPQL
 * queries: a stable descending sort on an integer key, then the first page.
 * Rows with equal keys keep their table order (the database leaves it open).
 */
module Ordering {

  predicate SortedDesc<T>(s: seq<T>, key: T -> int) {
    forall i, j :: 0 <= i < j < |s| ==> key(s[i]) >= key(s[j])
  }

  /** Places `x` before the first row whose key is not greater than its own. */
  function InsertDesc<T>(x: T, s: seq<T>, key: T -> int): (r: seq<T>)
    ensures multiset(r) == multiset(s) + multiset{x}
    ensures |r| == |s| + 1
  {
    if s == [] || key(s[0]) <= key(x) then [x] + s
    else
      assert s == [s[0]] + s[1..];
      [s[0]] + InsertDesc(x, s[1..], key)
  }

  /** Insertion sort, non-increasing by `key`. */
  function SortDesc<T>(s: seq<T>, key: T -> int): (r: seq<T>)
    ensures multiset(r) == multiset(s)
    ensures |r| == |s|
  {
    if s == [] then []
    else
      assert s == [s[0]] + s[1..];
      InsertDesc(s[0], SortDesc(s[1..], key), key)
  }

  /** The first page of size `limit`. */
  function FirstPage<T>(s: seq<T>, limit: nat): (r: seq<T>)
    ensures |r| == if limit < |s| then limit else |s|
    ensures r == s[..|r|]
  {
    if limit < |s| then s[..limit] else s
  }

  lemma {:induction false} InsertDescSorted<T>(x: T, s: seq<T>, key: T -> int)
    requires SortedDesc(s, key)
    ensures SortedDesc(InsertDesc(x, s, key), key)
    decreases |s|
  {
    if s != [] && key(s[0]) > key(x) {
      InsertDescSorted(x, s[1..], key);
      var r := InsertDesc(x, s[1..], key);
      forall k | 0 <= k < |r| ensures key(s[0]) >= key(r[k]) {
        assert r[k] in multiset(r);
        assert r[k] in multiset(s[1..]) + multiset{x};
        if r[k] != x {
          assert r[k] in s[1..];
        }
      }
    }
  }

  /** The sorted rows are a non-increasing permutation of the input rows. */
  lemma {:induction false} SortDescSorted<T>(s: seq<T>, key: T -> int)
    ensures SortedDesc(SortDesc(s, key), key)
    ensures multiset(SortDesc(s, key)) == multiset(s)
    decreases |s|
  {
    if s != [] {
      SortDescSorted(s[1..], key);
      InsertDescSorted(s[0], SortDesc(s[1..], key), key);
    }
  }

  /**
   * A page of the sorted rows is the top of the ordering: it is sorted, it comes
   * from the input, and every row left out has a key no greater than every row kept.
   */
  lemma TopPage<T>(s: seq<T>, key: T -> int, limit: nat)
    ensures SortedDesc(FirstPage(SortDesc(s, key), limit), key)
    ensures multiset(FirstPage(SortDesc(s, key), limit)) <= multiset(s)
    ensures |FirstPage(SortDesc(s, key), limit)| == if limit < |s| then limit else |s|
    ensures forall i, j :: 0 <= i < |FirstPage(SortDesc(s, key), limit)| <= j < |s| ==>
              key(FirstPage(SortDesc(s, key), limit)[i]) >= key(SortDesc(s, key)[j])
  {
    var sorted := SortDesc(s, key);
    SortDescSorted(s, key);
    var page := FirstPage(sorted, limit);
    assert sorted == page + sorted[|page|..];
    assert multiset(sorted) == multiset(page) + multiset(sorted[|page|..]);
  }

  /** A row the page leaves out (counting repeats) has a key no greater than any row on the page. */
  lemma PageKeepsTheTop<T>(s: seq<T>, key: T -> int, limit: nat)
    ensures forall x :: multiset(FirstPage(SortDesc(s, key), limit))[x] < multiset(s)[x] ==>
              forall i :: 0 <= i < |FirstPage(SortDesc(s, key), limit)| ==>
                key(FirstPage(SortDesc(s, key), limit)[i]) >= key(x)
  {
    var sorted := SortDesc(s, key);
    var page := FirstPage(sorted, limit);
    TopPage(s, key, limit);
    assert sorted == page + sorted[|page|..];
    assert multiset(sorted) == multiset(page) + multiset(sorted[|page|..]);
    forall x | multiset(page)[x] < multiset(s)[x]
      ensures forall i :: 0 <= i < |page| ==> key(page[i]) >= key(x)
    {
      assert x in multiset(sorted[|page|..]);
      var j :| 0 <= j < |sorted[|page|..]| && sorted[|page|..][j] == x;
      assert sorted[|page| + j] == x;
    }
  }
}
