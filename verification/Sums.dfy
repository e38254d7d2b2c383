/** Sums of reals over sequences. */
module Sums {
  import opened Sorting

  function SumBy<T>(f: T -> real, s: seq<T>): real {
    if s == [] then 0.0 else f(s[0]) + SumBy(f, s[1..])
  }

  lemma {:induction false} SumConcat<T>(f: T -> real, a: seq<T>, b: seq<T>)
    ensures SumBy(f, a + b) == SumBy(f, a) + SumBy(f, b)
  {
    if a == [] {
      assert a + b == b;
    } else {
      assert (a + b)[1..] == a[1..] + b;
      SumConcat(f, a[1..], b);
    }
  }

  lemma {:induction false} SumAlike<T>(f: T -> real, g: T -> real, s: seq<T>)
    requires forall i :: 0 <= i < |s| ==> f(s[i]) == g(s[i])
    ensures SumBy(f, s) == SumBy(g, s)
  {
    if s != [] { SumAlike(f, g, s[1..]); }
  }

  lemma {:induction false} SumZero<T>(f: T -> real, s: seq<T>)
    requires forall i :: 0 <= i < |s| ==> f(s[i]) == 0.0
    ensures SumBy(f, s) == 0.0
  {
    if s != [] { SumZero(f, s[1..]); }
  }

  lemma {:induction false} SumSnoc<T>(f: T -> real, s: seq<T>)
    requires s != []
    ensures SumBy(f, s) == SumBy(f, s[..|s| - 1]) + f(s[|s| - 1])
  {
    assert s == s[..|s| - 1] + [s[|s| - 1]];
    SumConcat(f, s[..|s| - 1], [s[|s| - 1]]);
  }

  lemma {:induction false} SumInsert<T(!new)>(f: T -> real, le: (T, T) -> bool, x: T, s: seq<T>)
    ensures SumBy(f, Insert(le, x, s)) == f(x) + SumBy(f, s)
  {
    if s == [] {
    } else if le(x, s[0]) {
      assert ([x] + s)[1..] == s;
    } else {
      SumInsert(f, le, x, s[1..]);
      assert Insert(le, x, s)[1..] == Insert(le, x, s[1..]);
    }
  }

  lemma {:induction false} SumSort<T(!new)>(f: T -> real, le: (T, T) -> bool, s: seq<T>)
    ensures SumBy(f, Sort(le, s)) == SumBy(f, s)
  {
    if s != [] {
      SumSort(f, le, s[1..]);
      SumInsert(f, le, s[0], Sort(le, s[1..]));
    }
  }
}
