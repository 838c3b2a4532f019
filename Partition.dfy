/** The split of an array of `len` elements into `n` contiguous blocks that
    both map-reduce programs use: block i starts at `i * (len / n)` and ends
    where block i + 1 starts, except the last block, which ends at `len`
    and so absorbs the remainder `len % n`. */
module Partition {
  import opened Reduce
  import opened Arith

  function BlockStart(len: nat, n: nat, i: nat): nat
    requires n >= 1
  {
    i * (len / n)
  }

  function BlockEnd(len: nat, n: nat, i: nat): nat
    requires n >= 1
  {
    if i == n - 1 then len else (i + 1) * (len / n)
  }

  /** Position j lies in block i. */
  predicate InBlock(len: nat, n: nat, i: nat, j: int)
    requires n >= 1
  {
    BlockStart(len, n, i) <= j < BlockEnd(len, n, i)
  }

  /** Every block is a well-formed slice of the array, even when n > len
      makes every block but the last empty. */
  lemma BlockBounds(len: nat, n: nat, i: nat)
    requires 1 <= n && i < n
    ensures BlockStart(len, n, i) <= BlockEnd(len, n, i) <= len
  {
    var t := len / n;
    assert n * t <= len;
    MulMonotone(i, i + 1, t);
    if i < n - 1 {
      MulMonotone(i + 1, n, t);
    } else {
      MulMonotone(i, n, t);
    }
  }

  /** Blocks never overlap: an earlier block ends no later than a later
      one starts. */
  lemma BlocksOrdered(len: nat, n: nat, i: nat, i': nat)
    requires 1 <= n && i < i' < n
    ensures BlockEnd(len, n, i) <= BlockStart(len, n, i')
  {
    MulMonotone(i + 1, i', len / n);
  }

  /** The blocks tile [0, len): the first starts at 0, the last ends at len,
      and each one ends exactly where the next one starts. */
  lemma Tiling(len: nat, n: nat)
    requires n >= 1
    ensures BlockStart(len, n, 0) == 0
    ensures BlockEnd(len, n, n - 1) == len
    ensures forall i :: 0 <= i < n - 1 ==> BlockEnd(len, n, i) == BlockStart(len, n, i + 1)
    ensures forall i :: 0 <= i < n ==> BlockStart(len, n, i) <= BlockEnd(len, n, i) <= len
  {
    forall i | 0 <= i < n
      ensures BlockStart(len, n, i) <= BlockEnd(len, n, i) <= len
    {
      BlockBounds(len, n, i);
    }
  }

  /** Exact cover: a position belongs to some block if and only if it is a
      position of the array, and then to exactly one block. */
  lemma {:induction false} ExactCover(len: nat, n: nat, j: int)
    requires n >= 1
    ensures (exists i :: 0 <= i < n && InBlock(len, n, i, j)) <==> 0 <= j < len
    ensures forall i, i' :: 0 <= i < n && 0 <= i' < n && InBlock(len, n, i, j) && InBlock(len, n, i', j) ==> i == i'
  {
    var t := len / n;
    if 0 <= j < len {
      var i: nat;
      if t == 0 {
        i := n - 1;
      } else {
        var q := j / t;
        assert q * t <= j < (q + 1) * t;
        if q < n - 1 {
          i := q;
        } else {
          i := n - 1;
          MulMonotone(n - 1, q, t);
        }
      }
      assert InBlock(len, n, i, j);
    }
    forall i | 0 <= i < n && InBlock(len, n, i, j)
      ensures 0 <= j < len
    {
      BlockBounds(len, n, i);
    }
    forall i, i' | 0 <= i < n && 0 <= i' < n && InBlock(len, n, i, j) && InBlock(len, n, i', j)
      ensures i == i'
    {
      if i < i' {
        BlocksOrdered(len, n, i, i');
      } else if i' < i {
        BlocksOrdered(len, n, i', i);
      }
    }
  }

  /** The first k slots of the results array once the workers of blocks
      0 .. k-1 have each stored the f-fold of their block. */
  function BlockTotals(f: int -> int, s: seq<int>, n: nat, k: nat): (r: seq<int>)
    requires 1 <= n && k <= n
    ensures |r| == k
  {
    if k == 0 then []
    else
      BlockBounds(|s|, n, k - 1);
      BlockTotals(f, s, n, k - 1) + [SumBy(f, s[BlockStart(|s|, n, k - 1)..BlockEnd(|s|, n, k - 1)])]
  }

  /** The slot a worker fills for block i is the Span it folds: blocks are
      well formed, so the worker's loop visits exactly the block. */
  lemma BlockTotalsStep(f: int -> int, s: seq<int>, n: nat, i: nat)
    requires 1 <= n && i < n
    ensures BlockStart(|s|, n, i) <= BlockEnd(|s|, n, i) <= |s|
    ensures BlockTotals(f, s, n, i + 1) == BlockTotals(f, s, n, i) + [Span(f, s, BlockStart(|s|, n, i), BlockEnd(|s|, n, i))]
  {
    BlockBounds(|s|, n, i);
  }

  /** Writing the next slot i of a results array whose first i slots are
      `done` extends them by one. */
  lemma FillSlot(before: seq<int>, after: seq<int>, done: seq<int>, i: nat, v: int)
    requires i < |before| && before[..i] == done && after == before[i := v]
    ensures after[..i + 1] == done + [v]
  {
    assert after[..i + 1] == before[..i] + [v];
  }

  lemma {:induction false} BlockTotalsAt(f: int -> int, s: seq<int>, n: nat, k: nat, i: nat)
    requires 1 <= n && i < k <= n
    ensures BlockStart(|s|, n, i) <= BlockEnd(|s|, n, i) <= |s|
    ensures BlockTotals(f, s, n, k)[i] == SumBy(f, s[BlockStart(|s|, n, i)..BlockEnd(|s|, n, i)])
  {
    BlockBounds(|s|, n, i);
    if i < k - 1 {
      BlockTotalsAt(f, s, n, k - 1, i);
    }
  }

  /** Reducing the first k < n partial results gives the fold of everything
      before block k. */
  lemma {:induction false} BlockTotalsPrefix(f: int -> int, s: seq<int>, n: nat, k: nat)
    requires 1 <= n && k < n
    ensures BlockStart(|s|, n, k) <= |s|
    ensures Sum(BlockTotals(f, s, n, k)) == SumBy(f, s[..BlockStart(|s|, n, k)])
  {
    BlockBounds(|s|, n, k);
    if k > 0 {
      var a, b := BlockStart(|s|, n, k - 1), BlockEnd(|s|, n, k - 1);
      BlockBounds(|s|, n, k - 1);
      BlockTotalsPrefix(f, s, n, k - 1);
      SumByConcat(Id, BlockTotals(f, s, n, k - 1), [SumBy(f, s[a..b])]);
      SumBySplit(f, s, 0, a, b);
      assert s[0..a] == s[..a] && s[0..b] == s[..b];
    }
  }

  /** The map-reduce theorem: for every n >= 1, reducing the n partial
      results gives the fold of the whole sequence, so the parallel total
      does not depend on n and equals the sequential one. */
  lemma ParallelEqualsSequential(f: int -> int, s: seq<int>, n: nat)
    requires n >= 1
    ensures Sum(BlockTotals(f, s, n, n)) == SumBy(f, s)
  {
    var a := BlockStart(|s|, n, n - 1);
    BlockTotalsPrefix(f, s, n, n - 1);
    SumByConcat(Id, BlockTotals(f, s, n, n - 1), [SumBy(f, s[a..|s|])]);
    SumBySplit(f, s, 0, a, |s|);
    assert s[0..a] == s[..a] && s[0..|s|] == s;
  }
}
