/** Sums over sequences, the reduce((sum, x) => sum + f(x), 0) of the source. */
module Sums {

  function SumBy<T>(s: seq<T>, f: T -> real): real {
    if s == [] then 0.0 else f(s[0]) + SumBy(s[1..], f)
  }

  lemma {:induction false} SumByConcat<T>(a: seq<T>, b: seq<T>, f: T -> real)
    ensures SumBy(a + b, f) == SumBy(a, f) + SumBy(b, f)
  {
    if a == [] {
      assert a + b == b;
    } else {
      SumByConcat(a[1..], b, f);
      assert (a + b)[1..] == a[1..] + b;
    }
  }

  lemma SumByAppend<T>(a: seq<T>, x: T, f: T -> real)
    ensures SumBy(a + [x], f) == SumBy(a, f) + f(x)
  {
    SumByConcat(a, [x], f);
  }

  function SumIntBy<T>(s: seq<T>, f: T -> int): int {
    if s == [] then 0 else f(s[0]) + SumIntBy(s[1..], f)
  }

  lemma {:induction false} SumIntByIsSumBy<T>(s: seq<T>, f: T -> int, g: T -> real)
    requires forall x :: x in s ==> g(x) == f(x) as real
    ensures SumIntBy(s, f) as real == SumBy(s, g)
  {
    if s != [] {
      SumIntByIsSumBy(s[1..], f, g);
    }
  }

  lemma {:induction false} SumIntByConcat<T>(a: seq<T>, b: seq<T>, f: T -> int)
    ensures SumIntBy(a + b, f) == SumIntBy(a, f) + SumIntBy(b, f)
  {
    if a == [] {
      assert a + b == b;
    } else {
      SumIntByConcat(a[1..], b, f);
      assert (a + b)[1..] == a[1..] + b;
    }
  }
}
