/** Products and quotients of integers, one step at a time. */
module Arithmetic {

  lemma OneMore(k: int, size: int)
    ensures (k + 1) * size == k * size + size
  {
  }

  lemma ProductMonotone(a: int, b: int, size: nat)
    requires a <= b
    ensures a * size <= b * size
  {
  }

  lemma DivisionBound(k: nat, d: nat, n: int)
    requires d > 0 && k * d <= n
    ensures k <= n / d
  {
    var quotient := n / d;
    assert n == d * quotient + n % d;
    if quotient < k {
      ProductMonotone(quotient + 1, k, d);
    }
  }
}
