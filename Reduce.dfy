/** Left-to-right folds of `soma += f(x)` over an integer sequence: the
    accumulation every worker and every reduce loop of the programs does. */
module Reduce {

  function Id(x: int): int { x }

  /** f applied to every element of s, added up from the first element to
      the last. */
  function SumBy(f: int -> int, s: seq<int>): int
  {
    if s == [] then 0 else SumBy(f, s[..|s| - 1]) + f(s[|s| - 1])
  }

  /** The plain sum of the elements. */
  function Sum(s: seq<int>): int
  {
    SumBy(Id, s)
  }

  /** What a worker that folds positions [lo, hi) of s computes: a loop
      `for (i = lo; i < hi; i++)` whose body never runs when lo >= hi, and
      which only reads s when it does run. */
  function Span(f: int -> int, s: seq<int>, lo: int, hi: int): int
    requires lo < hi ==> 0 <= lo && hi <= |s|
  {
    if lo < hi then SumBy(f, s[lo..hi]) else 0
  }

  lemma {:induction false} SumByConcat(f: int -> int, a: seq<int>, b: seq<int>)
    ensures SumBy(f, a + b) == SumBy(f, a) + SumBy(f, b)
    decreases |b|
  {
    if b == [] {
      assert a + b == a;
    } else {
      var b' := b[..|b| - 1];
      assert (a + b)[..|a + b| - 1] == a + b';
      SumByConcat(f, a, b');
    }
  }

  lemma SumBySplit(f: int -> int, s: seq<int>, lo: int, mid: int, hi: int)
    requires 0 <= lo <= mid <= hi <= |s|
    ensures SumBy(f, s[lo..hi]) == SumBy(f, s[lo..mid]) + SumBy(f, s[mid..hi])
  {
    assert s[lo..hi] == s[lo..mid] + s[mid..hi];
    SumByConcat(f, s[lo..mid], s[mid..hi]);
  }

  /** One more iteration of an accumulation loop over [lo, i). */
  lemma SumByExtend(f: int -> int, s: seq<int>, lo: int, i: int)
    requires 0 <= lo <= i < |s|
    ensures SumBy(f, s[lo..i + 1]) == SumBy(f, s[lo..i]) + f(s[i])
  {
    assert s[lo..i + 1][..i - lo] == s[lo..i];
  }

  /** Bounds on every term bound the fold. */
  lemma {:induction false} SumByBounds(f: int -> int, s: seq<int>, lo: int, hi: int)
    requires forall k :: 0 <= k < |s| ==> lo <= f(s[k]) <= hi
    ensures |s| * lo <= SumBy(f, s) <= |s| * hi
    decreases |s|
  {
    if s != [] {
      var s' := s[..|s| - 1];
      assert forall k :: 0 <= k < |s'| ==> s'[k] == s[k];
      SumByBounds(f, s', lo, hi);
      assert |s| * lo == |s'| * lo + lo;
      assert |s| * hi == |s'| * hi + hi;
    }
  }
}
