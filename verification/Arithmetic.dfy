/** The few facts of non-linear arithmetic the proofs name. */
module Arithmetic {

  function Min(a: int, b: int): int {
    if a <= b then a else b
  }

  lemma MulMonotone(a: int, b: int, c: nat)
    requires a <= b
    ensures a * c <= b * c
  {
  }

  lemma DivModUnique(x: int, d: nat, q: int, r: int)
    requires d > 0 && x == q * d + r && 0 <= r < d
    ensures x / d == q && x % d == r
  {
    var k := x / d - q;
    assert k * d == r - x % d;
    if k > 0 {
      MulMonotone(1, k, d);
    } else if k < 0 {
      MulMonotone(k, -1, d);
    }
  }
}
