/** Division facts the solver does not find by itself. */
module Arithmetic {
  lemma NextMultiple(n: nat, r: int)
    requires r >= 1
    ensures (n + 1) % r == (if n % r + 1 == r then 0 else n % r + 1)
    ensures (n + 1) / r == n / r + (if n % r + 1 == r then 1 else 0)
  {
    var q, m := n / r, n % r;
    assert n == r * q + m;
    if m + 1 == r {
      assert n + 1 == r * (q + 1);
      DivModUnique(n + 1, r, q + 1, 0);
    } else {
      DivModUnique(n + 1, r, q, m + 1);
    }
  }

  lemma DivModUnique(n: nat, r: int, q: nat, m: nat)
    requires m < r && n == r * q + m
    ensures n / r == q && n % r == m
  {
    var d := n / r - q;
    assert r * d == r * (n / r) - r * q;
    assert r * d == m - n % r;
    if d != 0 {
      MultipleIsFar(r, d);
      assert false;
    }
  }

  lemma MultipleIsFar(r: int, d: int)
    requires r >= 1 && d != 0
    ensures r * d >= r || r * d <= -r
  {
    if d >= 1 {
      ProductNotNegative(r, d - 1);
      Distribute(r, d, -1);
    } else {
      ProductNotNegative(r, -d - 1);
      Distribute(r, -d, -1);
      Distribute(r, d, -d);
    }
  }

  lemma ProductNotNegative(a: nat, b: nat)
    ensures a * b >= 0
  {
  }

  lemma Distribute(a: int, b: int, c: int)
    ensures a * (b + c) == a * b + a * c
  {
  }

  /** The quotient of a sum is the sum of the quotients, plus one when the remainders carry. */
  lemma DivAdd(x: nat, y: nat, n: int)
    requires n >= 1
    ensures (x + y) / n == x / n + y / n + if x % n + y % n >= n then 1 else 0
  {
    var q, m := x / n + y / n, x % n + y % n;
    Distribute(n, x / n, y / n);
    assert x + y == n * q + m;
    if m >= n {
      Distribute(n, q, 1);
      DivModUnique(x + y, n, q + 1, m - n);
    } else {
      DivModUnique(x + y, n, q, m);
    }
  }

  lemma DivMonotone(x: nat, y: nat, n: int)
    requires n >= 1 && x <= y
    ensures x / n <= y / n
  {
    DivAdd(x, y - x, n);
  }

  lemma DivOfProduct(a: nat, n: int)
    requires n >= 1
    ensures a * n / n == a
  {
    DivModUnique(a * n, n, a, 0);
  }
}
