/** The few facts about integer products and quotients the schedules and codecs rest on. */
module Arith {
  import opened Numbers

  lemma MulMonotone(a: int, b: int, n: nat)
    requires a <= b
    ensures a * n <= b * n
  {
  }

  lemma MulStep(a: int, n: int)
    ensures a * (n + 1) == a * n + a
  {
  }

  /** A quotient and remainder are determined by their equation. */
  lemma DivUnique(x: int, n: nat, q: int, r: nat)
    requires x == q * n + r && r < n
    ensures x / n == q && x % n == r
  {
    var t := x / n;
    assert x == t * n + x % n;
    if t < q {
      MulMonotone(t + 1, q, n);
    } else if q < t {
      MulMonotone(q + 1, t, n);
    }
  }

  lemma DivAtLeast(x: nat, n: nat, q: nat)
    requires n >= 1 && q * n <= x
    ensures q <= x / n
  {
    assert x == x / n * n + x % n;
    if x / n < q {
      MulMonotone(x / n + 1, q, n);
    }
  }

  /** Dividing q*n + min(m, n) by n gives q, or q + 1 once m covers every remaining unit. */
  lemma SpreadQuotient(q: nat, m: nat, n: nat, x: nat)
    requires n >= 1 && x == q * n + Min(m, n)
    ensures x / n == q + (if n <= m then 1 else 0)
  {
    if n <= m {
      assert x == (q + 1) * n;
      DivUnique(x, n, q + 1, 0);
    } else {
      DivUnique(x, n, q, m);
    }
  }

  /** Taking that quotient away leaves the same shape with one unit fewer. */
  lemma SpreadRest(q: nat, m: nat, n: nat, x: nat, t: nat)
    requires n >= 1 && x == q * n + Min(m, n) && t == q + (if n <= m then 1 else 0)
    ensures t <= x && x - t == q * (n - 1) + Min(m, n - 1)
  {
    assert q * n == q * (n - 1) + q;
  }

  lemma RateBound(n: nat, d: nat, x: nat)
    requires n <= d && d >= 1
    ensures x / d * n <= x
  {
    assert x == x / d * d + x % d;
    MulMonotone(n, d, x / d);
  }

  /** n shares of d cover x exactly when n is at least x / d, rounded up. */
  lemma CoversIff(x: nat, d: nat, n: nat)
    requires d >= 1
    ensures x <= d * n <==> (x + d - 1) / d <= n
  {
    var q, r := (x + d - 1) / d, (x + d - 1) % d;
    assert x + d - 1 == d * q + r && 0 <= r < d;
    if n < q {
      MulMonotone(n + 1, q, d);
      assert d * (n + 1) == d * n + d;
    } else {
      MulMonotone(q, n, d);
    }
  }
}
