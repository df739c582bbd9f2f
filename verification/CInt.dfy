/** C integer arithmetic: division and remainder that truncate toward zero, the 32-bit range, and multiples. */
module CInt {

  /** The quotient of C's `/` for a positive divisor. */
  function Div(a: int, b: int): (q: int)
    requires b > 0
  {
    if a >= 0 then a / b else -((-a) / b)
  }

  /** The remainder of C's `%` for a positive divisor: it carries the sign of the dividend. */
  function Rem(a: int, b: int): (r: int)
    requires b > 0
  {
    if a >= 0 then a % b else -((-a) % b)
  }

  predicate Int32(x: int) {
    -0x8000_0000 <= x < 0x8000_0000
  }

  /** Different multiples of k are at least k apart. */
  lemma Multiples(p: int, q: int, k: int)
    requires p < q && k >= 0
    ensures p * k + k <= q * k
  {
    assert (p + 1) * k <= q * k;
  }

  lemma Remainder(a: int, n: nat, q: int, r: nat)
    requires r < n && a == q * n + r
    ensures a / n == q && a % n == r
  {
    var p := a / n;
    assert a == p * n + a % n;
    if p < q {
      Multiples(p, q, n);
    } else if q < p {
      Multiples(q, p, n);
    }
  }

  /** Counting one further, the remainder starts anew as the quotient grows. */
  lemma Successor(a: nat, n: nat)
    requires n > 0
    ensures (a + 1) % n == if a % n + 1 == n then 0 else a % n + 1
    ensures (a + 1) / n == a / n + if a % n + 1 == n then 1 else 0
  {
    var q, r := a / n, a % n;
    assert a == q * n + r;
    if r + 1 == n {
      assert a + 1 == (q + 1) * n + 0;
      Remainder(a + 1, n, q + 1, 0);
    } else {
      Remainder(a + 1, n, q, r + 1);
    }
  }

  /** A multiple of n * k is one of n. */
  lemma Divides(a: int, n: nat, k: nat)
    requires n > 0 && k > 0 && a % (n * k) == 0
    ensures a % n == 0
  {
    var q := a / (n * k);
    assert a == q * (n * k) + 0 == (q * k) * n + 0;
    Remainder(a, n, q * k, 0);
  }
}
