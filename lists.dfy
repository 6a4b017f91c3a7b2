/**
 * The list operations the entities use on their relationship lists: `contains`,
 * `add` and `remove(Object)` of `java.util.ArrayList`, on object identity.
 */
module Lists {

  predicate NoDup<T(==)>(s: seq<T>) {
    forall i, j :: 0 <= i < j < |s| ==> s[i] != s[j]
  }

  /** The guarded add of the entities: append `x` unless it is already present. */
  function AddIfAbsent<T(==)>(s: seq<T>, x: T): (r: seq<T>)
  {
    if x in s then s else s + [x]
  }

  /** `List.remove(Object)`: drop the first occurrence of `x`, if any. */
  function RemoveFirst<T(==)>(s: seq<T>, x: T): (r: seq<T>)
    ensures |r| == if x in s then |s| - 1 else |s|
    ensures multiset(r) == multiset(s) - multiset{x}
    ensures forall y :: y in r ==> y in s
  {
    if s == [] then []
    else
      assert s == [s[0]] + s[1..];
      if s[0] == x then s[1..]
      else [s[0]] + RemoveFirst(s[1..], x)
  }

  /** Adding keeps the list duplicate-free, contains `x` afterwards, and keeps every old element in place. */
  lemma AddIfAbsentSpec<T>(s: seq<T>, x: T)
    requires NoDup(s)
    ensures NoDup(AddIfAbsent(s, x))
    ensures x in AddIfAbsent(s, x)
    ensures forall y :: y in AddIfAbsent(s, x) <==> y in s || y == x
    ensures AddIfAbsent(s, x)[..|s|] == s
  {
  }

  /** Adding twice is adding once. */
  lemma AddIfAbsentIdempotent<T>(s: seq<T>, x: T)
    ensures AddIfAbsent(AddIfAbsent(s, x), x) == AddIfAbsent(s, x)
  {
  }

  /** On a duplicate-free list, removing `x` removes every occurrence and keeps the others in order. */
  lemma {:induction false} RemoveFirstSpec<T>(s: seq<T>, x: T)
    requires NoDup(s)
    ensures NoDup(RemoveFirst(s, x))
    ensures forall y :: y in RemoveFirst(s, x) <==> y in s && y != x
    decreases |s|
  {
    if s != [] && s[0] != x {
      RemoveFirstSpec(s[1..], x);
      var r := RemoveFirst(s[1..], x);
      assert s[0] !in s[1..];
    }
  }

  /** Removing an absent element changes nothing. */
  lemma {:induction false} RemoveFirstAbsent<T>(s: seq<T>, x: T)
    requires x !in s
    ensures RemoveFirst(s, x) == s
    decreases |s|
  {
    if s != [] {
      RemoveFirstAbsent(s[1..], x);
      assert [s[0]] + s[1..] == s;
    }
  }

  /** Adding a new element and removing it again gives the original list back. */
  lemma {:induction false} AddThenRemove<T>(s: seq<T>, x: T)
    requires x !in s
    ensures RemoveFirst(AddIfAbsent(s, x), x) == s
    decreases |s|
  {
    if s == [] {
    } else {
      assert (s + [x])[0] == s[0] && (s + [x])[1..] == s[1..] + [x];
      AddThenRemove(s[1..], x);
      assert [s[0]] + s[1..] == s;
    }
  }

  /** The elements satisfying `p`, in their original order (a stream `filter`). */
  function Filter<T(==)>(s: seq<T>, p: T -> bool): (r: seq<T>)
    ensures |r| <= |s|
    ensures forall y :: y in r ==> y in s && p(y)
    ensures forall y :: y in s && p(y) ==> y in r
    ensures multiset(r) <= multiset(s)
    decreases |s|
  {
    if s == [] then []
    else
      assert s == [s[0]] + s[1..];
      (if p(s[0]) then [s[0]] else []) + Filter(s[1..], p)
  }

  /** One step of `Filter`. */
  lemma FilterCons<T>(s: seq<T>, p: T -> bool)
    requires s != []
    ensures Filter(s, p) == (if p(s[0]) then [s[0]] else []) + Filter(s[1..], p)
  {
  }

  /** A duplicate-free list's head does not recur and its tail is duplicate-free. */
  lemma NoDupTail<T>(s: seq<T>)
    requires s != [] && NoDup(s)
    ensures NoDup(s[1..]) && s[0] !in s[1..]
  {
    forall i, j | 0 <= i < j < |s[1..]| ensures s[1..][i] != s[1..][j] {
      assert s[1..][i] == s[i + 1] && s[1..][j] == s[j + 1];
    }
    forall k | 0 <= k < |s[1..]| ensures s[1..][k] != s[0] {
      assert s[1..][k] == s[k + 1];
    }
  }

  /** The first two elements of a duplicate-free list differ. */
  lemma NoDupFirstTwo<T>(s: seq<T>)
    requires NoDup(s) && |s| >= 2
    ensures s[0] in s && s[1] in s && s[0] != s[1]
  {
  }

  /** A duplicate-free list whose every element is `x`, and which holds `x`, is `[x]`. */
  lemma NoDupAllSame<T>(s: seq<T>, x: T)
    requires NoDup(s) && x in s
    requires forall y :: y in s ==> y == x
    ensures s == [x]
  {
    assert s[0] in s;
    if |s| >= 2 {
      NoDupFirstTwo(s);
    }
  }

  /** Filtering by `p` and by its negation splits the list: nothing is lost or duplicated. */
  lemma {:induction false} FilterSplit<T>(s: seq<T>, p: T -> bool, q: T -> bool)
    requires forall y :: y in s ==> (q(y) <==> !p(y))
    ensures multiset(Filter(s, p)) + multiset(Filter(s, q)) == multiset(s)
    decreases |s|
  {
    if s != [] {
      assert s == [s[0]] + s[1..];
      FilterSplit(s[1..], p, q);
    }
  }

  /** Filtering a list with one more element at the end filters that element on its own. */
  lemma {:induction false} FilterSnoc<T>(s: seq<T>, x: T, p: T -> bool)
    ensures Filter(s + [x], p) == Filter(s, p) + (if p(x) then [x] else [])
    decreases |s|
  {
    if s == [] {
      assert [x][1..] == [];
    } else {
      var rest := s[1..] + [x];
      assert (s + [x])[0] == s[0] && (s + [x])[1..] == rest;
      FilterSnoc(s[1..], x, p);
      var head := if p(s[0]) then [s[0]] else [];
      assert Filter(s + [x], p) == head + Filter(rest, p);
      assert Filter(s, p) == head + Filter(s[1..], p);
    }
  }
}
