/** Division facts used wherever the source splits a counter into frame and slot. */
module Arith {

  lemma MulAtLeast(k: int, d: int)
    requires 1 <= k && 0 <= d
    ensures d <= k * d
  {
    assert k * d == (k - 1) * d + d;
    assert 0 <= (k - 1) * d;
  }

  lemma MulOrder(a: int, b: int, d: int)
    requires a <= b && 0 <= d
    ensures a * d <= b * d
  {
    assert b * d - a * d == (b - a) * d;
    assert 0 <= (b - a) * d;
  }

  lemma QuotientUnique(q: int, r: int, q': int, r': int, d: int)
    requires q * d + r == q' * d + r'
    requires 0 <= r < d && 0 <= r' < d
    ensures q == q' && r == r'
  {
    assert (q - q') * d == r' - r;
    if q > q' {
      MulAtLeast(q - q', d);
    } else if q < q' {
      MulAtLeast(q' - q, d);
    }
  }

  lemma DivModUnique(q: int, r: int, d: int)
    requires 0 <= r < d
    ensures (q * d + r) / d == q && (q * d + r) % d == r
  {
    var n := q * d + r;
    assert n == (n / d) * d + n % d;
    QuotientUnique(q, r, n / d, n % d, d);
  }

  lemma Euclid(n: int, d: int)
    requires 0 < d
    ensures n == n % d + (n / d) * d && 0 <= n % d < d
  {
  }

  // Shifting by whole periods leaves the remainder alone and moves the quotient.
  lemma DivModShift(n: int, m: int, d: int)
    requires 0 < d
    ensures (n + m * d) / d == n / d + m && (n + m * d) % d == n % d
  {
    assert n == (n / d) * d + n % d;
    assert n + m * d == (n / d + m) * d + n % d;
    DivModUnique(n / d + m, n % d, d);
  }

  // One step of the counter: either the slot advances or the frame does.
  lemma DivModSucc(n: int, d: int)
    requires 0 < d
    ensures n % d + 1 < d ==> (n + 1) / d == n / d && (n + 1) % d == n % d + 1
    ensures n % d + 1 == d ==> (n + 1) / d == n / d + 1 && (n + 1) % d == 0
  {
    assert n == (n / d) * d + n % d;
    if n % d + 1 < d {
      DivModUnique(n / d, n % d + 1, d);
    } else {
      assert n + 1 == (n / d + 1) * d + 0;
      DivModUnique(n / d + 1, 0, d);
    }
  }

  // A remainder modulo `a * b` splits into a quotient modulo `a` and a remainder modulo `b`.
  lemma DivModNest(n: nat, a: nat, b: nat)
    requires 0 < a && 0 < b
    ensures 0 < a * b && n % (a * b) == (n / b % a) * b + n % b
    ensures n % (a * b) / b == n / b % a && n % (a * b) % b == n % b
  {
    MulAtLeast(a, b);
    var q := n / b;
    var x, y := q / a, q % a;
    var r := y * b + n % b;
    assert y * b <= (a - 1) * b;
    assert (a - 1) * b == a * b - b;
    assert n == q * b + n % b;
    assert q * b == x * (a * b) + y * b by {
      assert q == x * a + y;
      assert (x * a + y) * b == x * a * b + y * b;
      assert x * a * b == x * (a * b);
    }
    DivModUnique(x, r, a * b);
    DivModUnique(y, n % b, b);
  }
}
