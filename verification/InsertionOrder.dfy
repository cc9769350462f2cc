/**
 The iteration order of JavaScript's Map and Set: every key once, in the order of first insertion.
 */
module InsertionOrder {

  function Distinct<T(==)>(s: seq<T>): seq<T> {
    if s == [] then []
    else
      var d := Distinct(s[..|s| - 1]);
      Include(d, s[|s| - 1])
  }

  /** Set.prototype.add, and the key side of Map.prototype.set: a known key keeps its place. */
  function Include<T(==)>(d: seq<T>, x: T): seq<T> {
    if x in d then d else d + [x]
  }

  ghost predicate NoDuplicates<T>(s: seq<T>) {
    forall i, j :: 0 <= i < j < |s| ==> s[i] != s[j]
  }

  lemma {:induction false} DistinctKeeps<T>(s: seq<T>)
    ensures forall x :: x in Distinct(s) <==> x in s
    ensures NoDuplicates(Distinct(s))
  {
    if s != [] {
      DistinctKeeps(s[..|s| - 1]);
      assert s == s[..|s| - 1] + [s[|s| - 1]];
    }
  }

  lemma DistinctAppend<T>(s: seq<T>, x: T)
    ensures Distinct(s + [x]) == Include(Distinct(s), x)
  {
    assert (s + [x])[..|s|] == s;
  }

  lemma {:induction false} DistinctOfNoDuplicates<T>(s: seq<T>)
    requires NoDuplicates(s)
    ensures Distinct(s) == s
  {
    if s != [] {
      var init := s[..|s| - 1];
      DistinctOfNoDuplicates(init);
      assert s == init + [s[|s| - 1]];
    }
  }

  /** a occurs before b does. */
  ghost predicate SeenBefore<T>(s: seq<T>, a: T, b: T) {
    exists i :: 0 <= i < |s| && s[i] == a && b !in s[..i + 1]
  }

  lemma SeenBeforeIsTotal<T>(s: seq<T>, a: T, b: T)
    requires a in s && a != b
    ensures SeenBefore(s, a, b) || SeenBefore(s, b, a)
  {
    var i :| 0 <= i < |s| && s[i] == a;
    if b in s[..i + 1] {
      var j := FirstIndex(s, b);
      var m := FirstIndex(s, a);
      assert b !in s[..j] && a !in s[..m];
      if m < j {
        assert s[..m + 1] == s[..m] + [a];
        assert b !in s[..m + 1] by {
          assert forall x :: x in s[..m + 1] ==> x in s[..j];
        }
      } else {
        assert s[..j + 1] == s[..j] + [b];
        assert a !in s[..j + 1] by {
          assert forall x :: x in s[..j] ==> x in s[..m];
        }
      }
    }
  }

  lemma {:induction false} FirstIndex<T>(s: seq<T>, x: T) returns (i: nat)
    requires x in s
    ensures i < |s| && s[i] == x && x !in s[..i]
  {
    var n := |s| - 1;
    assert s == s[..n] + [s[n]];
    if x in s[..n] {
      i := FirstIndex(s[..n], x);
      assert s[..n][..i] == s[..i];
    } else {
      i := n;
    }
  }

  /** Keys keep the order in which they were first seen. */
  lemma {:induction false} DistinctInOrder<T>(s: seq<T>, a: T, b: T) returns (i: nat, j: nat)
    requires SeenBefore(s, a, b) && b in s
    ensures i < j < |Distinct(s)| && Distinct(s)[i] == a && Distinct(s)[j] == b
  {
    var p :| 0 <= p < |s| && s[p] == a && b !in s[..p + 1];
    var n := |s| - 1;
    var init := s[..n];
    assert s == init + [s[n]];
    DistinctKeeps(init);
    assert s[..n + 1] == s;
    assert p < n;
    assert init[p] == a;
    if b in init {
      assert init[..p + 1] == s[..p + 1];
      i, j := DistinctInOrder(init, a, b);
    } else {
      assert a in Distinct(init);
      i :| 0 <= i < |Distinct(init)| && Distinct(init)[i] == a;
      j := |Distinct(init)|;
    }
  }

  ghost function Elements<T>(s: seq<T>): set<T> {
    set x | x in s
  }

  lemma {:induction false} ElementsBound<T>(s: seq<T>)
    ensures |Elements(s)| <= |s|
    ensures NoDuplicates(s) <==> |Elements(s)| == |s|
  {
    if s != [] {
      var init, last := s[..|s| - 1], s[|s| - 1];
      ElementsBound(init);
      assert s == init + [last];
      assert Elements(s) == Elements(init) + {last};
      if last in init {
        assert Elements(s) == Elements(init);
        var i :| 0 <= i < |init| && init[i] == last;
        assert s[i] == s[|s| - 1];
      } else {
        assert |Elements(s)| == |Elements(init)| + 1;
        assert NoDuplicates(init) ==> NoDuplicates(s);
        assert NoDuplicates(s) ==> NoDuplicates(init) by {
          assert forall i :: 0 <= i < |init| ==> init[i] == s[i];
        }
      }
    }
  }

  /** The pigeonhole step: a duplicate-free list inside one that is no longer is all of it. */
  lemma Pigeonhole<T>(small: seq<T>, large: seq<T>)
    requires NoDuplicates(small) && |large| <= |small|
    requires forall x :: x in small ==> x in large
    ensures Elements(small) == Elements(large)
    ensures NoDuplicates(large)
  {
    ElementsBound(small);
    ElementsBound(large);
    SubsetOfSmallerSet(Elements(small), Elements(large));
  }

  /** A rearrangement of a duplicate-free list has no duplicates either. */
  lemma NoDuplicatesOfPermutation<T>(a: seq<T>, b: seq<T>)
    requires multiset(a) == multiset(b) && NoDuplicates(a)
    ensures NoDuplicates(b)
  {
    assert |a| == |multiset(a)| == |multiset(b)| == |b|;
    assert Elements(a) == Elements(b) by {
      assert forall x :: x in a <==> x in multiset(a);
      assert forall x :: x in b <==> x in multiset(b);
    }
    ElementsBound(a);
    ElementsBound(b);
  }

  lemma SubsetOfSmallerSet<T>(a: set<T>, b: set<T>)
    requires a <= b && |b| <= |a|
    ensures a == b
  {
    assert b == a + (b - a);
    assert |b| == |a| + |b - a|;
  }
}
