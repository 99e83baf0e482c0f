/** Order facts about products and integer quotients. */
module Arithmetic {

  lemma MulKeepsOrder(x: nat, y: nat, d: nat)
    requires x <= y
    ensures x * d <= y * d
  {
  }

  lemma DivisionIsGreatest(n: nat, q: nat, d: nat)
    requires d > 0 && q * d <= n
    ensures q <= n / d
  {
    if q >= n / d + 1 {
      MulKeepsOrder(n / d + 1, q, d);
    }
  }

  lemma FloorsAdd(a: nat, b: nat, d: nat)
    requires d > 0
    ensures a / d + b / d <= (a + b) / d
  {
    assert (a / d + b / d) * d == (a / d) * d + (b / d) * d;
    DivisionIsGreatest(a + b, a / d + b / d, d);
  }

  lemma DivisionGrows(a: nat, b: nat, d: nat)
    requires d > 0 && a <= b
    ensures a / d <= b / d
  {
    DivisionIsGreatest(b, a / d, d);
  }

  lemma {:induction false} QuotientIsBelow(n: nat, q: nat, d: nat)
    requires d > 0 && n < q * d
    ensures n / d < q
  {
    assert n / d * d <= n;
    if n / d >= q {
      MulKeepsOrder(q, n / d, d);
    }
  }

  lemma QuotientOf(q: nat, n: nat, j: nat)
    requires j < n
    ensures (q * n + j) / n == q
  {
    assert (q + 1) * n == q * n + n;
    DivisionIsGreatest(q * n + j, q, n);
    QuotientIsBelow(q * n + j, q + 1, n);
  }

  lemma RemainderOf(q: nat, n: nat, j: nat)
    requires j < n
    ensures (q * n + j) % n == j
  {
    var x := q * n + j;
    QuotientOf(q, n, j);
    DivisionSplits(x, n);
  }

  lemma DivisionSplits(x: nat, n: nat)
    requires n > 0
    ensures x == x / n * n + x % n
  {
  }
}
