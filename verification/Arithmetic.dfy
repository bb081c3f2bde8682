/** Multiples and remainders. */
module Arithmetic {

  lemma MulOrder(a: int, b: int, n: nat)
    ensures a < b ==> a * n + n <= b * n
    decreases b - a
  {
    if a < b {
      assert (a + 1) * n == a * n + n;
      MulOrder(a + 1, b, n);
    }
  }

  lemma DivMod(x: int, n: nat)
    requires n > 0
    ensures x == x / n * n + x % n && 0 <= x % n < n
  {
  }

  lemma MultipleMod(q: int, n: nat)
    requires n > 0
    ensures q * n % n == 0
  {
    DivMod(q * n, n);
    MulOrder(q, q * n / n, n);
    MulOrder(q * n / n, q, n);
  }

  lemma BetweenMultiples(x: int, q: int, n: nat)
    requires n > 0 && q * n < x < q * n + n
    ensures x % n != 0
  {
    DivMod(x, n);
    MulOrder(q, x / n, n);
    MulOrder(x / n, q, n);
  }

  lemma MultipleDiv(q: int, n: nat)
    requires n > 0
    ensures q * n / n == q
  {
    DivMod(q * n, n);
    MulOrder(q, q * n / n, n);
    MulOrder(q * n / n, q, n);
  }

  lemma SmallDiv(v: nat, base: nat)
    requires v < base
    ensures v / base == 0 && v % base == v
  {
  }

  lemma Product(a: nat, b: nat)
    ensures a * b >= 0
  {
  }

  lemma AtLeastOnce(a: nat, b: nat)
    requires a >= 1
    ensures a * b >= b
  {
    Product(a - 1, b);
    assert a * b == (a - 1) * b + b;
  }

  function Power(base: nat, n: nat): nat {
    if n == 0 then 1 else base * Power(base, n - 1)
  }

  lemma {:induction false} PowerGrows(base: nat, m: nat, n: nat)
    requires base >= 1 && m <= n
    ensures 1 <= Power(base, m) <= Power(base, n)
    decreases n
  {
    if m < n {
      PowerGrows(base, m, n - 1);
      AtLeastOnce(base, Power(base, n - 1));
    } else if m > 0 {
      PowerGrows(base, m - 1, n - 1);
      AtLeastOnce(base, Power(base, n - 1));
    }
  }
}
