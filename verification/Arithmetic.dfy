/** Division by a variable, in steps small enough for the solver. */
module Arithmetic {
  lemma MulMonotone(m: nat, n: nat, k: nat)
    requires m <= n
    ensures k * m <= k * n
  {
  }

  lemma DivExact(q: nat, ratio: nat)
    requires ratio > 0
    ensures (ratio * q) / ratio == q && (ratio * q) % ratio == 0
  {
    DivRest(q, 0, ratio);
  }

  lemma DivRest(q: nat, r: nat, ratio: nat)
    requires r < ratio
    ensures (ratio * q + r) / ratio == q && (ratio * q + r) % ratio == r
  {
    var x := ratio * q + r;
    DivUnique(ratio, x / ratio, x % ratio, q, r);
  }

  /** Quotient and remainder are unique. */
  lemma DivUnique(ratio: nat, q1: int, r1: nat, q2: int, r2: nat)
    requires r1 < ratio && r2 < ratio && ratio * q1 + r1 == ratio * q2 + r2
    ensures q1 == q2 && r1 == r2
  {
    if q1 < q2 {
      MulStep(ratio, q1, q2);
    } else if q2 < q1 {
      MulStep(ratio, q2, q1);
    }
  }

  lemma {:induction false} MulStep(ratio: nat, q1: int, q2: int)
    requires q1 < q2
    ensures ratio * q2 >= ratio * q1 + ratio
    decreases q2 - q1
  {
    if q1 + 1 < q2 {
      MulStep(ratio, q1, q2 - 1);
    }
  }
}
