/** Facts about natural-number multiplication and Euclidean division that
    the index arithmetic of the model rests on, each proved in isolation. */
module IntArith {

  lemma MulMonotone(a: nat, b: nat, c: nat)
    requires a <= b
    ensures a * c <= b * c
  {
  }

  lemma MulSucc(a: nat, c: nat)
    ensures (a + 1) * c == a * c + c
  {
  }

  lemma MulNonnegative(a: nat, b: nat)
    ensures a * b >= 0
  {
  }

  lemma DivNonnegative(x: nat, y: nat)
    requires y >= 1
    ensures x / y >= 0
  {
  }

  /** The quotient times the divisor lies within one divisor below l. */
  lemma DivBounds(l: nat, d: nat)
    requires d >= 1
    ensures (l / d) * d <= l < (l / d) * d + d
  {
  }

  /** Writing c as k*t + j with j < t determines the quotient and remainder. */
  lemma DivModUnique(c: nat, t: nat, k: nat, j: nat)
    requires t >= 1 && c == k * t + j && j < t
    ensures c / t == k && c % t == j
  {
    var q, r := c / t, c % t;
    assert c == q * t + r && r < t;
    if q > k {
      MulMonotone(k + 1, q, t);
      MulSucc(k, t);
    } else if q < k {
      MulMonotone(q + 1, k, t);
      MulSucc(q, t);
    }
  }
}
