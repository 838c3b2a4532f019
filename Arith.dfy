/** Two facts of nonlinear integer arithmetic the solver needs spelled out. */
module Arith {

  lemma MulMonotone(a: nat, b: nat, c: nat)
    requires a <= b
    ensures a * c <= b * c
  {
  }

  /** Quotient and remainder are determined by a == q * b + r, 0 <= r < b. */
  lemma DivModUnique(a: nat, b: nat, q: nat, r: nat)
    requires b >= 1 && a == q * b + r && r < b
    ensures q == a / b && r == a % b
  {
    var q', r' := a / b, a % b;
    assert a == q' * b + r';
    if q > q' {
      MulMonotone(q' + 1, q, b);
      assert false;
    } else if q < q' {
      MulMonotone(q + 1, q', b);
      assert false;
    }
  }
}
