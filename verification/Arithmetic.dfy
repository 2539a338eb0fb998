/** Division with remainder. */
module Arithmetic {
  lemma DivisionIs(a: nat, n: nat, q: nat, r: nat)
    requires n > 0 && a == n * q + r && r < n
    ensures a / n == q && a % n == r
  {
    var k := q - a / n;
    assert n * k == a % n - r;
    assert k >= 1 ==> n * k >= n;
    assert k <= -1 ==> n * k <= 0 - n;
  }

  /** a / n, rounded up. */
  function CeilDiv(a: nat, n: nat): nat
    requires n > 0
  {
    (a + n - 1) / n
  }

  lemma CeilDivStep(a: nat, n: nat)
    requires n > 0
    ensures CeilDiv(a, n) == if a == 0 then 0 else if a <= n then 1 else 1 + CeilDiv(a - n, n)
  {
    if a == 0 {
      DivisionIs(n - 1, n, 0, n - 1);
    } else if a <= n {
      DivisionIs(a + n - 1, n, 1, a - 1);
    } else {
      var q, r := (a - 1) / n, (a - 1) % n;
      assert a - 1 == n * q + r && n * (q + 1) == n * q + n;
      DivisionIs(a + n - 1, n, q + 1, r);
    }
  }

  lemma ModBelow(p: nat, size: nat)
    requires p < size
    ensures p % size == p
  {
  }

  lemma ModShift(p: nat, size: nat)
    requires 0 < size <= p
    ensures p % size == (p - size) % size
  {
    var q := p / size;
    assert q == 0 ==> size * q == 0;
    assert p - size == size * (q - 1) + p % size;
    DivisionIs(p - size, size, q - 1, p % size);
  }
}
