/**
 Array.prototype.sort with a comparator that subtracts two numeric keys. The language guarantees a
 stable sort, so the result is the unique ascending rearrangement that keeps equal keys in order.
 */
module StableSort {
  import opened InsertionOrder
  import opened Sums

  ghost predicate Sorted<T>(s: seq<T>, key: T -> real) {
    forall i, j :: 0 <= i < j < |s| ==> key(s[i]) <= key(s[j])
  }

  ghost predicate DistinctKeys<T>(s: seq<T>, key: T -> real) {
    forall i, j :: 0 <= i < j < |s| ==> key(s[i]) != key(s[j])
  }

  function Insert<T>(x: T, s: seq<T>, key: T -> real): seq<T> {
    if s == [] || key(x) <= key(s[0]) then [x] + s else [s[0]] + Insert(x, s[1..], key)
  }

  function SortBy<T>(s: seq<T>, key: T -> real): seq<T> {
    if s == [] then [] else Insert(s[0], SortBy(s[1..], key), key)
  }

  lemma {:induction false} InsertKeeps<T>(x: T, s: seq<T>, key: T -> real)
    ensures multiset(Insert(x, s, key)) == multiset{x} + multiset(s)
    ensures |Insert(x, s, key)| == |s| + 1
    ensures Sorted(s, key) ==> Sorted(Insert(x, s, key), key)
  {
    var r := Insert(x, s, key);
    if s == [] {
    } else if key(x) <= key(s[0]) {
      assert Sorted(s, key) ==> forall j :: 0 < j < |r| ==> key(x) <= key(r[j]);
    } else {
      InsertKeeps(x, s[1..], key);
      var rest := Insert(x, s[1..], key);
      assert s == [s[0]] + s[1..];
      assert multiset(r) == multiset{s[0]} + multiset(rest);
      forall j | Sorted(s, key) && 0 <= j < |rest|
        ensures key(s[0]) <= key(rest[j])
      {
        assert rest[j] in multiset(rest);
        assert rest[j] == x || rest[j] in s[1..];
      }
    }
  }

  /** Sorting rearranges: ascending, nothing lost, nothing added. */
  lemma {:induction false} SortByKeeps<T>(s: seq<T>, key: T -> real)
    ensures multiset(SortBy(s, key)) == multiset(s)
    ensures |SortBy(s, key)| == |s|
    ensures Sorted(SortBy(s, key), key)
  {
    if s != [] {
      SortByKeeps(s[1..], key);
      InsertKeeps(s[0], SortBy(s[1..], key), key);
      assert s == [s[0]] + s[1..];
    }
  }

  lemma SortByMembers<T>(s: seq<T>, key: T -> real)
    ensures forall x :: x in SortBy(s, key) <==> x in s
  {
    SortByKeeps(s, key);
    forall x
      ensures x in SortBy(s, key) <==> x in s
    {
      assert x in SortBy(s, key) <==> x in multiset(SortBy(s, key));
      assert x in s <==> x in multiset(s);
    }
  }

  lemma {:induction false} InsertSum<T>(x: T, s: seq<T>, key: T -> real, f: T -> real)
    ensures SumBy(Insert(x, s, key), f) == f(x) + SumBy(s, f)
  {
    if s == [] || key(x) <= key(s[0]) {
      assert ([x] + s)[1..] == s;
    } else {
      InsertSum(x, s[1..], key, f);
      assert Insert(x, s, key)[1..] == Insert(x, s[1..], key);
    }
  }

  lemma {:induction false} SortBySum<T>(s: seq<T>, key: T -> real, f: T -> real)
    ensures SumBy(SortBy(s, key), f) == SumBy(s, f)
  {
    if s != [] {
      SortBySum(s[1..], key, f);
      InsertSum(s[0], SortBy(s[1..], key), key, f);
    }
  }

  lemma SortBySumInt<T>(s: seq<T>, key: T -> real, f: T -> int)
    ensures SumIntBy(SortBy(s, key), f) == SumIntBy(s, f)
  {
    var g := (x: T) => f(x) as real;
    SortBySum(s, key, g);
    SumIntByIsSumBy(s, f, g);
    SumIntByIsSumBy(SortBy(s, key), f, g);
  }

  /** An ascending sequence is already sorted: sorting twice is sorting once. */
  lemma {:induction false} SortOfSorted<T>(s: seq<T>, key: T -> real)
    requires Sorted(s, key)
    ensures SortBy(s, key) == s
  {
    if s != [] {
      var rest := s[1..];
      assert Sorted(rest, key) by {
        assert forall i :: 0 <= i < |rest| ==> rest[i] == s[i + 1];
      }
      SortOfSorted(rest, key);
      assert rest == [] || key(s[0]) <= key(rest[0]);
    }
  }

  lemma DistinctKeysOfPermutation<T>(a: seq<T>, b: seq<T>, key: T -> real)
    requires multiset(a) == multiset(b) && DistinctKeys(a, key)
    ensures DistinctKeys(b, key)
  {
    NoDuplicatesOfPermutation(a, b);
    forall i, j | 0 <= i < j < |b|
      ensures key(b[i]) != key(b[j])
    {
      assert b[i] in multiset(a) && b[j] in multiset(a);
      var p :| 0 <= p < |a| && a[p] == b[i];
      var q :| 0 <= q < |a| && a[q] == b[j];
      assert p != q;
    }
  }

  lemma HeadNotInTail<T>(s: seq<T>, key: T -> real)
    requires s != [] && DistinctKeys(s, key)
    ensures s[0] !in s[1..]
  {
    forall i | 0 <= i < |s[1..]|
      ensures s[1..][i] != s[0]
    {
      assert s[1..][i] == s[i + 1];
    }
  }

  lemma SameHeads<T>(a: seq<T>, b: seq<T>, key: T -> real)
    requires a != [] && b != [] && a[0] in b && b[0] in a
    requires Sorted(a, key) && Sorted(b, key) && DistinctKeys(a, key)
    ensures a[0] == b[0]
  {
    var i :| 0 <= i < |b| && b[i] == a[0];
    var j :| 0 <= j < |a| && a[j] == b[0];
    assert key(b[0]) <= key(b[i]) && key(a[0]) <= key(a[j]);
  }

  lemma {:induction false} SortedSameMembers<T>(a: seq<T>, b: seq<T>, key: T -> real)
    requires Sorted(a, key) && Sorted(b, key) && DistinctKeys(a, key) && DistinctKeys(b, key)
    requires forall x :: x in a <==> x in b
    ensures a == b
  {
    if a == [] {
      assert forall i :: 0 <= i < |b| ==> b[i] in b;
    } else {
      assert a[0] in b;
      assert b[0] in a;
      SameHeads(a, b, key);
      HeadNotInTail(a, key);
      HeadNotInTail(b, key);
      assert a == [a[0]] + a[1..] && b == [b[0]] + b[1..];
      forall x
        ensures x in a[1..] <==> x in b[1..]
      {
        assert x in a <==> x == a[0] || x in a[1..];
        assert x in b <==> x == b[0] || x in b[1..];
      }
      SortedSameMembers(a[1..], b[1..], key);
    }
  }

  /** With distinct keys two ascending rearrangements of the same elements are the same sequence. */
  lemma SortedIsUnique<T>(a: seq<T>, b: seq<T>, key: T -> real)
    requires multiset(a) == multiset(b)
    requires Sorted(a, key) && Sorted(b, key) && DistinctKeys(a, key)
    ensures a == b
  {
    DistinctKeysOfPermutation(a, b, key);
    forall x
      ensures x in a <==> x in b
    {
      assert x in a <==> x in multiset(a);
      assert x in b <==> x in multiset(b);
    }
    SortedSameMembers(a, b, key);
  }

  /** For distinct keys only the set of elements matters. */
  lemma SortOfSameMembers<T>(a: seq<T>, b: seq<T>, key: T -> real)
    requires DistinctKeys(a, key) && DistinctKeys(b, key)
    requires forall x :: x in a <==> x in b
    ensures SortBy(a, key) == SortBy(b, key)
  {
    SortByKeeps(a, key);
    SortByKeeps(b, key);
    SortByMembers(a, key);
    SortByMembers(b, key);
    DistinctKeysOfPermutation(a, SortBy(a, key), key);
    DistinctKeysOfPermutation(b, SortBy(b, key), key);
    SortedSameMembers(SortBy(a, key), SortBy(b, key), key);
  }

  /** Some occurrence of a stands before some occurrence of b. */
  ghost predicate Ahead<T>(s: seq<T>, a: T, b: T) {
    exists i, j :: 0 <= i < j < |s| && s[i] == a && s[j] == b
  }

  lemma AheadInTail<T>(s: seq<T>, rest: seq<T>, head: T, a: T, b: T)
    requires s == [head] + rest
    ensures Ahead(rest, a, b) ==> Ahead(s, a, b)
    ensures b in rest ==> Ahead(s, head, b)
    ensures Ahead(s, a, b) ==> Ahead(rest, a, b) || (a == head && b in rest)
  {
    assert forall i :: 0 <= i < |rest| ==> s[i + 1] == rest[i];
    if Ahead(rest, a, b) {
      var i, j :| 0 <= i < j < |rest| && rest[i] == a && rest[j] == b;
      assert s[i + 1] == a && s[j + 1] == b;
    }
    if b in rest {
      var j :| 0 <= j < |rest| && rest[j] == b;
      assert s[0] == head && s[j + 1] == b;
    }
    if Ahead(s, a, b) {
      var i, j :| 0 <= i < j < |s| && s[i] == a && s[j] == b;
      assert rest[j - 1] == b;
      assert i > 0 ==> rest[i - 1] == a;
    }
  }

  lemma {:induction false} InsertAhead<T>(x: T, s: seq<T>, key: T -> real, a: T, b: T)
    requires Sorted(s, key)
    ensures Ahead(s, a, b) ==> Ahead(Insert(x, s, key), a, b)
    ensures b in s && key(x) <= key(b) ==> Ahead(Insert(x, s, key), x, b)
  {
    if s == [] || key(x) <= key(s[0]) {
      AheadInTail(Insert(x, s, key), s, x, a, b);
    } else {
      var rest := Insert(x, s[1..], key);
      InsertKeeps(x, s[1..], key);
      InsertAhead(x, s[1..], key, a, b);
      AheadInTail(s, s[1..], s[0], a, b);
      AheadInTail(Insert(x, s, key), rest, s[0], a, b);
      AheadInTail(Insert(x, s, key), rest, s[0], x, b);
      if b in s[1..] {
        assert b in multiset(rest) && b in rest;
      }
    }
  }

  /** Stability: an element that came first and does not have a larger key stays first. */
  lemma {:induction false} SortIsStable<T>(s: seq<T>, key: T -> real, i: int, j: int)
    requires 0 <= i < j < |s| && key(s[i]) <= key(s[j])
    ensures Ahead(SortBy(s, key), s[i], s[j])
  {
    var rest := SortBy(s[1..], key);
    SortByKeeps(s[1..], key);
    SortByMembers(s[1..], key);
    if i > 0 {
      SortIsStable(s[1..], key, i - 1, j - 1);
    } else {
      assert s[1..][j - 1] == s[j];
    }
    InsertAhead(s[0], rest, key, s[i], s[j]);
  }

  /** ... and one with a strictly smaller key goes first wherever it came from. */
  lemma SmallerGoesFirst<T>(s: seq<T>, key: T -> real, a: T, b: T)
    requires a in s && b in s && key(a) < key(b)
    ensures Ahead(SortBy(s, key), a, b)
  {
    SortByKeeps(s, key);
    SortByMembers(s, key);
    var r := SortBy(s, key);
    assert a in r && b in r;
    var i :| 0 <= i < |r| && r[i] == a;
    var j :| 0 <= j < |r| && r[j] == b;
  }

  // ---------- Equal keys ----------

  function WithKey<T>(s: seq<T>, key: T -> real, k: real): seq<T> {
    if s == [] then [] else (if key(s[0]) == k then [s[0]] else []) + WithKey(s[1..], key, k)
  }

  lemma {:induction false} WithKeyMembers<T>(s: seq<T>, key: T -> real, k: real, x: T)
    ensures x in WithKey(s, key, k) <==> x in s && key(x) == k
  {
    if s != [] {
      WithKeyMembers(s[1..], key, k, x);
      assert x in s <==> x == s[0] || x in s[1..];
    }
  }

  lemma {:induction false} WithKeyConcat<T>(a: seq<T>, b: seq<T>, key: T -> real, k: real)
    ensures WithKey(a + b, key, k) == WithKey(a, key, k) + WithKey(b, key, k)
  {
    if a == [] {
      assert a + b == b;
    } else {
      WithKeyConcat(a[1..], b, key, k);
      assert (a + b)[1..] == a[1..] + b;
    }
  }

  lemma {:induction false} InsertKeepsGroups<T>(x: T, s: seq<T>, key: T -> real, k: real)
    requires Sorted(s, key)
    ensures WithKey(Insert(x, s, key), key, k) == WithKey([x] + s, key, k)
  {
    assert ([x] + s)[1..] == s;
    if s != [] && key(x) > key(s[0]) {
      InsertKeepsGroups(x, s[1..], key, k);
      assert ([x] + s[1..])[1..] == s[1..];
    }
  }

  /** Sorting keeps the elements of each key in their order. */
  lemma {:induction false} SortKeepsGroups<T>(s: seq<T>, key: T -> real, k: real)
    ensures WithKey(SortBy(s, key), key, k) == WithKey(s, key, k)
  {
    if s != [] {
      SortKeepsGroups(s[1..], key, k);
      SortByKeeps(s[1..], key);
      InsertKeepsGroups(s[0], SortBy(s[1..], key), key, k);
      assert ([s[0]] + SortBy(s[1..], key))[1..] == SortBy(s[1..], key);
    }
  }

  lemma HeadIsLeast<T>(a: seq<T>, b: seq<T>, key: T -> real)
    requires a != [] && b != [] && Sorted(b, key)
    requires WithKey(a, key, key(a[0])) == WithKey(b, key, key(a[0]))
    ensures key(b[0]) <= key(a[0])
  {
    WithKeyMembers(a, key, key(a[0]), a[0]);
    WithKeyMembers(b, key, key(a[0]), a[0]);
    var i :| 0 <= i < |b| && b[i] == a[0];
  }

  /** Two ascending sequences with the same groups are the same. */
  lemma {:induction false} SortedWithSameGroups<T>(a: seq<T>, b: seq<T>, key: T -> real)
    requires Sorted(a, key) && Sorted(b, key)
    requires forall k :: WithKey(a, key, k) == WithKey(b, key, k)
    ensures a == b
  {
    if a == [] || b == [] {
      if a != [] {
        HasGroup(a, key);
      } else if b != [] {
        HasGroup(b, key);
      }
    } else {
      HeadIsLeast(a, b, key);
      HeadIsLeast(b, a, key);
      var k := key(a[0]);
      assert WithKey(a, key, k)[0] == a[0] && WithKey(b, key, k)[0] == b[0];
      forall j
        ensures WithKey(a[1..], key, j) == WithKey(b[1..], key, j)
      {
        assert WithKey(a, key, j) == WithKey(b, key, j);
        TailGroup(a, key, j);
        TailGroup(b, key, j);
      }
      SortedWithSameGroups(a[1..], b[1..], key);
      assert a == [a[0]] + a[1..] && b == [b[0]] + b[1..];
    }
  }

  lemma TailGroup<T>(s: seq<T>, key: T -> real, k: real)
    requires s != []
    ensures WithKey(s[1..], key, k) == if key(s[0]) == k then WithKey(s, key, k)[1..] else WithKey(s, key, k)
  {
  }

  lemma HasGroup<T>(s: seq<T>, key: T -> real)
    requires s != []
    ensures WithKey(s, key, key(s[0])) != []
  {
  }

  /** A stable sort depends on its input exactly through the order within each key. */
  lemma SameSortSameGroups<T>(a: seq<T>, b: seq<T>, key: T -> real, k: real)
    requires SortBy(a, key) == SortBy(b, key)
    ensures WithKey(a, key, k) == WithKey(b, key, k)
  {
    SortKeepsGroups(a, key, k);
    SortKeepsGroups(b, key, k);
  }

  lemma SameGroupsSameSort<T>(a: seq<T>, b: seq<T>, key: T -> real)
    requires forall k :: WithKey(a, key, k) == WithKey(b, key, k)
    ensures SortBy(a, key) == SortBy(b, key)
  {
    forall k
      ensures WithKey(SortBy(a, key), key, k) == WithKey(SortBy(b, key), key, k)
    {
      SortKeepsGroups(a, key, k);
      SortKeepsGroups(b, key, k);
    }
    SortByKeeps(a, key);
    SortByKeeps(b, key);
    SortedWithSameGroups(SortBy(a, key), SortBy(b, key), key);
  }
}
