/** The test data both map-reduce programs generate: element i is i % 100. */
module Data {
  import opened Reduce

  function Generated(n: nat): seq<int>
  {
    seq(n, i => i % 100)
  }

  /** Every generated element lies in [0, 99]. */
  lemma GeneratedInRange(n: nat)
    ensures |Generated(n)| == n
    ensures forall i :: 0 <= i < n ==> 0 <= Generated(n)[i] <= 99
  {
  }

  /** The sum of the generated data is between 0 and 99 times its length. */
  lemma GeneratedSumBounds(n: nat)
    ensures 0 <= Sum(Generated(n)) <= 99 * n
  {
    SumByBounds(Id, Generated(n), 0, 99);
  }
}
