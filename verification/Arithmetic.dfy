/** The one fact about products that the solver is not left to find. */
module Arithmetic {

  lemma NextMultiple(a: int, b: int, m: nat)
    requires a < b
    ensures a * m + m <= b * m
  {
    var d := b - a - 1;
    assert b == a + 1 + d;
    assert (a + 1 + d) * m == a * m + m + d * m;
  }
}
