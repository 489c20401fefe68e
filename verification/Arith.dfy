/** Division and modulus facts the solver does not find by itself when the divisor is not a constant. */
module Arith {

  function Min(a: int, b: int): int {
    if a <= b then a else b
  }

  function Max(a: int, b: int): int {
    if a <= b then b else a
  }

  /** Quotient and remainder are the only way to write `a` as `q * n + r` with `0 <= r < n`. */
  lemma DivModUnique(a: int, n: int, q: int, r: int)
    requires 0 <= r < n && a == q * n + r
    ensures a / n == q && a % n == r
  {
    var k := a / n - q;
    assert a == n * (a / n) + a % n;
    assert k * n == (a / n) * n - q * n;
    OnlyZeroIsSmall(k, n);
  }

  lemma OnlyZeroIsSmall(k: int, n: int)
    requires -n < k * n < n
    ensures k == 0
  {
  }

  lemma MulMonotone(a: int, b: int, n: int)
    requires a <= b && 0 <= n
    ensures a * n <= b * n
  {
  }

  /** Index `q * n + r` of a table with rows of length `n` lies inside `m` rows exactly when row `q` does. */
  lemma RowInRange(q: int, m: int, n: int, r: int)
    requires 0 <= r < n && 0 <= q < m
    ensures 0 <= q * n <= q * n + r < m * n
  {
    MulMonotone(q + 1, m, n);
    MulMonotone(0, q, n);
  }

  lemma RowOf(a: int, m: int, n: int)
    requires 0 < n && 0 <= a < m * n
    ensures 0 <= a / n < m && 0 <= a % n < n && a == (a / n) * n + a % n
  {
    assert a == n * (a / n) + a % n;
  }

  lemma Distribute(a: int, b: int, n: int)
    ensures (a + b) * n == a * n + b * n
  {
  }

  /** Rows `0..m` of length `n` fit into `size` cells, so row `q` starts and ends inside. */
  lemma RowFits(q: int, m: int, n: int, size: int)
    requires 0 <= q < m && 0 <= n && m * n <= size
    ensures 0 <= q * n && q * n + n <= size
  {
    MulMonotone(q + 1, m, n);
    Distribute(q, 1, n);
  }

  // Quotient and remainder by repeated subtraction: the same numbers as `/` and `%` (`QuotIs`), but without
  // dragging nonlinear terms into every proof that mentions them.

  function Quot(a: nat, n: nat): nat
    requires n >= 1
    decreases a
  {
    if a < n then 0 else Quot(a - n, n) + 1
  }

  function Rem(a: nat, n: nat): (r: nat)
    requires n >= 1
    ensures r < n && r <= a
    decreases a
  {
    if a < n then a else Rem(a - n, n)
  }

  lemma {:induction false} QuotIs(a: nat, n: nat)
    requires n >= 1
    ensures Quot(a, n) == a / n && Rem(a, n) == a % n
    ensures a == Quot(a, n) * n + Rem(a, n)
    decreases a
  {
    if a < n {
      DivModUnique(a, n, 0, a);
    } else {
      QuotIs(a - n, n);
      Distribute(Quot(a - n, n), 1, n);
      DivModUnique(a, n, Quot(a, n), Rem(a, n));
    }
  }

  lemma {:induction false} QuotForm(q: nat, n: nat, r: nat)
    requires r < n
    ensures 0 <= q * n && Quot(q * n + r, n) == q && Rem(q * n + r, n) == r
  {
    if q > 0 {
      Distribute(q - 1, 1, n);
      QuotForm(q - 1, n, r);
    }
  }

  /** The product by repeated addition, for the same reason. */
  function Times(a: nat, n: nat): nat {
    if a == 0 then 0 else Times(a - 1, n) + n
  }

  lemma {:induction false} TimesIs(a: nat, n: nat)
    ensures Times(a, n) == a * n
  {
    if a > 0 {
      TimesIs(a - 1, n);
      Distribute(a - 1, 1, n);
    }
  }
}
