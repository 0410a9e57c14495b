/** Arithmetic: the smaller of two numbers, and division facts the solver does not find unaided. */
module Arithmetic {

  function Min(a: nat, b: nat): nat {
    if a <= b then a else b
  }

  lemma DivModUnique(a: nat, n: nat, q: nat, r: nat)
    requires r < n && a == n * q + r
    ensures a / n == q && a % n == r
  {
    var p := a / n;
    assert a == n * p + a % n;
    assert q < p ==> n * (q + 1) <= n * p;
    assert p < q ==> n * (p + 1) <= n * q;
  }

  lemma MultipleAligned(n: nat, q: nat)
    requires 0 < n
    ensures (q * n) % n == 0 && (q * n) / n == q
  {
    assert q * n == n * q;
    DivModUnique(q * n, n, q, 0);
  }

  lemma NextAligned(n: nat, a: nat)
    requires 0 < n && a % n == 0
    ensures (a + n) % n == 0
  {
    assert a == n * (a / n);
    DivModUnique(a + n, n, a / n + 1, 0);
  }

  lemma DivMonotone(a: nat, b: nat, n: nat)
    requires 0 < n && a <= b
    ensures a / n <= b / n
  {
    var p, q := b / n, a / n;
    assert b == n * p + b % n && a == n * q + a % n;
    assert p < q ==> n * (p + 1) <= n * q;
  }

  lemma AlignedWeaken(a: nat, n: nat, m: nat)
    requires 0 < m && 0 < n && n % m == 0 && a % n == 0
    ensures a % m == 0
  {
    var p, q := n / m, a / n;
    assert n == m * p && a == n * q;
    assert a == m * (p * q);
    DivModUnique(a, m, p * q, 0);
  }

  lemma MulMonotone(a: nat, b: nat, n: nat)
    requires a <= b
    ensures a * n <= b * n
  {
  }

  lemma MulOrdered(i: nat, j: nat, n: nat)
    requires 0 < n && i < j
    ensures n * i < n * j
  {
    MulMonotone(i + 1, j, n);
    assert (i + 1) * n == n * i + n && j * n == n * j;
  }

  lemma MulCancel(a: nat, b: nat, n: nat)
    requires 0 < n && a * n <= b * n
    ensures a <= b
  {
    assert b < a ==> (b + 1) * n <= a * n;
  }

  lemma DivBelow(q: nat, r: nat, n: nat)
    requires 0 < n && q < r * n
    ensures 0 <= q / n < r
  {
    var t := q / n;
    assert q == n * t + q % n;
    assert r <= t ==> r * n <= t * n;
  }

  lemma WholeWords(n: nat)
    requires n % 8 == 0
    ensures 2 * (n / 2) == n && 8 * (n / 8) == n
  {
    assert n == 8 * (n / 8) && n / 2 == 4 * (n / 8);
  }
}
