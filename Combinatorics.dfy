/** Factorials, binomial coefficients and powers of two, as used by the
    centered binomial law. */
module Combinatorics {

  function Fact(n: nat): (r: nat)
    ensures r >= 1
  {
    if n == 0 then 1 else n * Fact(n - 1)
  }

  function Pow2(n: nat): (r: nat)
    ensures r >= 1
  {
    if n == 0 then 1 else 2 * Pow2(n - 1)
  }

  /** Pascal's triangle: the number of `k`-element subsets of an `n`-set. */
  function Choose(n: nat, k: nat): nat
  {
    if k == 0 then 1
    else if n == 0 then 0
    else Choose(n - 1, k - 1) + Choose(n - 1, k)
  }

  /** `binomial(x, y)` as written: `fac(x) // fac(y) // fac(x - y)`, and 0
      when a factorial of a negative number raises `ValueError`. */
  function Binomial(x: int, y: int): nat
  {
    if x < 0 || y < 0 || x - y < 0 then 0
    else Quot(Quot(Fact(x), Fact(y)), Fact(x - y))
  }

  /** Python's `a // b` on naturals. */
  function Quot(a: nat, b: nat): nat
    requires b >= 1
  {
    a / b
  }

  /** `Choose(0..n-1 at n, ...)`: the sum Choose(n, 0) + ... + Choose(n, m - 1). */
  function ChooseSum(n: nat, m: nat): nat
  {
    if m == 0 then 0 else ChooseSum(n, m - 1) + Choose(n, m - 1)
  }

  lemma {:induction false} ChooseBeyond(n: nat, k: nat)
    requires k > n
    ensures Choose(n, k) == 0
  {
    if n > 0 {
      ChooseBeyond(n - 1, k - 1);
      ChooseBeyond(n - 1, k);
    }
  }

  lemma {:induction false} ChooseDiagonal(n: nat)
    ensures Choose(n, n) == 1
  {
    if n > 0 {
      ChooseDiagonal(n - 1);
      ChooseBeyond(n - 1, n);
    }
  }

  lemma {:induction false} ChoosePositive(n: nat, k: nat)
    requires k <= n
    ensures Choose(n, k) >= 1
  {
    if k > 0 && k < n {
      ChoosePositive(n - 1, k);
    } else if k > 0 {
      ChooseDiagonal(n);
    }
  }

  lemma PascalProduct(a: int, b: int, k: int, nk: int, fk1: int, fnk1: int, f: int)
    requires a * fk1 * (nk * fnk1) == f
    requires b * (k * fk1) * fnk1 == f
    ensures (a + b) * (k * fk1) * (nk * fnk1) == (k + nk) * f
  {
    calc {
      (a + b) * (k * fk1) * (nk * fnk1);
      a * (k * fk1) * (nk * fnk1) + b * (k * fk1) * (nk * fnk1);
      { assert a * (k * fk1) * (nk * fnk1) == k * (a * fk1 * (nk * fnk1)); }
      k * f + b * (k * fk1) * (nk * fnk1);
      { assert b * (k * fk1) * (nk * fnk1) == nk * (b * (k * fk1) * fnk1); }
      k * f + nk * f;
    }
  }

  /** `Choose(n, k) * k! * (n - k)! == n!`. */
  lemma {:induction false} ChooseFact(n: nat, k: nat)
    requires k <= n
    ensures Choose(n, k) * Fact(k) * Fact(n - k) == Fact(n)
  {
    if k == 0 {
    } else if k == n {
      ChooseDiagonal(n);
    } else {
      ChooseFact(n - 1, k - 1);
      ChooseFact(n - 1, k);
      assert Fact(n - k) == (n - k) * Fact(n - k - 1);
      assert Fact(k) == k * Fact(k - 1);
      PascalProduct(Choose(n - 1, k - 1), Choose(n - 1, k), k, n - k, Fact(k - 1), Fact(n - k - 1), Fact(n - 1));
    }
  }

  lemma DivMul(a: nat, b: nat)
    requires b > 0
    ensures (a * b) / b == a
  {
    var q := (a * b) / b;
    var r := (a * b) % b;
    assert a * b == q * b + r && 0 <= r < b;
    assert (a - q) * b == r;
    if a - q >= 1 {
      assert false;
    } else if a - q <= -1 {
      assert false;
    }
  }

  lemma CancelFactor(a: nat, b: nat, m: nat)
    requires m > 0 && a * m == b * m
    ensures a == b
  {
    DivMul(a, m);
    DivMul(b, m);
  }

  lemma DivChain(f: nat, c: nat, fy: nat, fxy: nat)
    requires fy > 0 && fxy > 0 && c * fy * fxy == f
    ensures f / fy / fxy == c
  {
    assert f == (c * fxy) * fy;
    DivMul(c * fxy, fy);
    DivMul(c, fxy);
  }

  lemma SameQuotient(c1: nat, c2: nat, fk: nat, fnk: nat, f: nat)
    requires fk > 0 && fnk > 0
    requires c1 * fk * fnk == f && c2 * fnk * fk == f
    ensures c1 == c2
  {
    assert c1 * (fk * fnk) == c2 * (fk * fnk);
    CancelFactor(c1, c2, fk * fnk);
  }

  /** The code's `binomial(x, y)` is the coefficient C(x, y) (not the C(y, x)
      its comment names), and 0 outside 0 <= y <= x. */
  lemma {:induction false} BinomialIsChoose(x: int, y: int)
    ensures Binomial(x, y) == if 0 <= y <= x then Choose(x, y) else 0
  {
    if 0 <= y <= x {
      ChooseFact(x, y);
      DivChain(Fact(x), Choose(x, y), Fact(y), Fact(x - y));
    }
  }

  lemma {:induction false} ChooseSymmetric(n: nat, k: nat)
    requires k <= n
    ensures Choose(n, k) == Choose(n, n - k)
  {
    ChooseFact(n, k);
    ChooseFact(n, n - k);
    assert n - (n - k) == k;
    SameQuotient(Choose(n, k), Choose(n, n - k), Fact(k), Fact(n - k), Fact(n));
  }

  lemma {:induction false} ChooseSumPascal(n: nat, m: nat)
    ensures ChooseSum(n + 1, m + 1) == ChooseSum(n, m + 1) + ChooseSum(n, m)
  {
    if m > 0 {
      ChooseSumPascal(n, m - 1);
    }
  }

  /** A row of Pascal's triangle sums to a power of two. */
  lemma {:induction false} ChooseRow(n: nat)
    ensures ChooseSum(n, n + 1) == Pow2(n)
  {
    if n > 0 {
      ChooseRow(n - 1);
      ChooseSumPascal(n - 1, n);
      ChooseBeyond(n - 1, n);
    }
  }
}
