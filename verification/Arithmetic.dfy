/** Division and remainder by a variable divisor. */
module Arithmetic {
  lemma NextModulo(q: nat, m: nat)
    requires m > 0
    ensures (q + 1) % m == if q % m == m - 1 then 0 else q % m + 1
  {
    var d, r := q / m, q % m;
    assert q + 1 == d * m + (r + 1);
    if r == m - 1 {
      assert q + 1 == (d + 1) * m + 0;
      DivModUnique(q + 1, m, d + 1, 0);
    } else {
      DivModUnique(q + 1, m, d, r + 1);
    }
  }

  lemma DivModUnique(q: int, m: nat, d: int, r: nat)
    requires r < m && q == d * m + r
    ensures q / m == d && q % m == r
  {
    var x := d - q / m;
    assert x * m == q % m - r by {
      assert q == (q / m) * m + q % m;
      assert x * m == d * m - (q / m) * m;
    }
    MultipleAtLeast(x, m);
    MultipleAtLeast(-x, m);
    assert (-x) * m == -(x * m);
  }

  lemma MultipleAtLeast(x: int, m: nat)
    ensures x >= 1 ==> x * m >= m
  {
    if x >= 1 {
      assert x * m == (x - 1) * m + m;
    }
  }

  lemma ProductGrows(q: nat, a: nat, b: nat)
    requires a <= b
    ensures q * a <= q * b
  {
  }

  function Power2(n: nat): (p: nat)
    ensures p >= 1
  {
    if n == 0 then 1 else 2 * Power2(n - 1)
  }
}
