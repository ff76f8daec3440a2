/** `dist_scale`: multiplying every value of a law by an integer constant. */
module Scaling {
  import opened Sums
  import opened Laws
  import opened BaseLaws

  /** `round(10 * a * c) / 10`: for integer `a` and `c` the rounding is exact,
      so the key is the integer `a * c`. */
  function ScaleKey(a: int, c: int): (k: int)
    ensures k == a * c
  {
    RoundUnique((10 * a * c) as real, 10 * a * c);
    RoundHalfEven((10 * a * c) as real) / 10
  }

  /** `B` is what `dist_scale(A, c)` may return: every key of `A`, times `c`,
      is a key of `B`; every key of `B` is such a product and carries the mass
      of one of the keys it comes from; and when `c != 0`, so that no two
      keys meet, each product carries the mass of its own key. */
  ghost predicate IsScaling(A: Law, c: int, B: Law)
  {
    && (forall a :: a in A ==> a * c in B)
    && (forall b :: b in B ==> exists a :: a in A && b == a * c && B[b] == A[a])
    && (c != 0 ==> forall a :: a in A ==> B[a * c] == A[a])
  }

  lemma MulCancel(a: int, x: int, c: int)
    requires c != 0 && a * c == x * c
    ensures a == x
  {
    assert (a - x) * c == 0;
  }

  /** The loop of `dist_scale`: each key in turn writes its mass at its
      scaled key, so a later key that lands on the same product overwrites
      the earlier one. The order of the keys is left open. */
  method DistScale(A: Law, c: int) returns (B: Law)
    ensures IsScaling(A, c, B)
    ensures c != 0 ==> B == Scaled(A, c)
  {
    B := map[];
    var rest := A.Keys;
    while rest != {}
      invariant rest <= A.Keys
      invariant forall a :: a in A && a !in rest ==> a * c in B
      invariant forall b :: b in B ==> exists a :: a in A && a !in rest && b == a * c && B[b] == A[a]
      invariant c != 0 ==> forall a :: a in A && a !in rest ==> B[a * c] == A[a]
      decreases |rest|
    {
      ghost var some := Pick(rest);
      var a :| a in rest;
      ghost var B0 := B;
      B := B[ScaleKey(a, c) := A[a]];
      forall x | x in A && x !in rest && c != 0
        ensures B[x * c] == B0[x * c]
      {
        if x * c == a * c {
          MulCancel(x, a, c);
        }
      }
      rest := rest - {a};
    }
    if c != 0 {
      DistScaleScaled(A, c, B);
    }
  }

  /** For `c != 0` the result is determined by `A` and `c`. */
  lemma ScalingUnique(A: Law, c: int, B1: Law, B2: Law)
    requires c != 0 && IsScaling(A, c, B1) && IsScaling(A, c, B2)
    ensures B1 == B2
  {
    forall b | b in B1
      ensures b in B2 && B2[b] == B1[b]
    {
      var a :| a in A && b == a * c && B1[b] == A[a];
    }
    forall b | b in B2
      ensures b in B1
    {
      var a :| a in A && b == a * c && B2[b] == A[a];
    }
  }

  /** The result for `c != 0`: the mass of `a` moves to `a * c`. */
  ghost function Scaled(A: Law, c: int): Law
    requires c != 0
  {
    ScaledKeysDivide(A, c);
    map b | b in ScaledKeys(A, c) :: A[b / c]
  }

  ghost function ScaledKeys(A: Law, c: int): set<int>
  {
    set a | a in A :: a * c
  }

  lemma ScaledKeysDivide(A: Law, c: int)
    requires c != 0
    ensures forall b :: b in ScaledKeys(A, c) ==> b / c in A
  {
    forall b | b in ScaledKeys(A, c)
      ensures b / c in A
    {
      var a :| a in A && b == a * c;
      MulDiv(a, c);
    }
  }

  lemma MulAtLeast(d: nat, c: nat)
    requires d >= 1
    ensures d * c >= c
  {
    assert d * c == (d - 1) * c + c;
  }

  lemma AbsMul(x: int, c: int)
    ensures Abs(x * c) == Abs(x) * Abs(c)
  {
    if x < 0 && c >= 0 {
      NegMul(x, c);
      assert x * c == -((-x) * c);
    } else if x < 0 {
      assert x * c == (-x) * (-c);
    } else if c < 0 {
      assert x * c == -(x * (-c));
    }
  }

  /** A multiple of `c` smaller than `c` in absolute value is 0. */
  lemma MulSmall(x: int, c: int)
    requires Abs(x * c) < Abs(c)
    ensures x == 0
  {
    AbsMul(x, c);
    if x != 0 {
      MulAtLeast(Abs(x), Abs(c));
    }
  }

  lemma MulDiv(a: int, c: int)
    requires c != 0
    ensures a * c / c == a
  {
    var q, r := a * c / c, a * c % c;
    assert (a - q) * c == r && 0 <= r < Abs(c);
    MulSmall(a - q, c);
  }

  lemma ScaledAt(A: Law, c: int, a: int)
    requires c != 0 && a in A
    ensures a * c in Scaled(A, c) && Scaled(A, c)[a * c] == A[a]
  {
    MulDiv(a, c);
  }

  lemma ScaledIsScaling(A: Law, c: int)
    requires c != 0
    ensures IsScaling(A, c, Scaled(A, c))
  {
    forall a | a in A
      ensures a * c in Scaled(A, c) && Scaled(A, c)[a * c] == A[a]
    {
      ScaledAt(A, c, a);
    }
    forall b | b in Scaled(A, c)
      ensures exists a :: a in A && b == a * c && Scaled(A, c)[b] == A[a]
    {
      var a :| a in A && b == a * c;
      ScaledAt(A, c, a);
    }
  }

  /** `dist_scale` by a nonzero constant computes `Scaled`. */
  lemma DistScaleScaled(A: Law, c: int, B: Law)
    requires c != 0 && IsScaling(A, c, B)
    ensures B == Scaled(A, c)
  {
    ScaledIsScaling(A, c);
    ScalingUnique(A, c, B, Scaled(A, c));
  }

  /** For `c != 0` scaling keeps the total mass. */
  lemma ScalingMass(A: Law, c: int, B: Law)
    requires c != 0 && IsScaling(A, c, B)
    ensures Mass(B) == Mass(A)
  {
    var h := (x: int) => x * c;
    forall x, y | x in A.Keys && y in A.Keys && h(x) == h(y)
      ensures x == y
    {
      MulCancel(x, y, c);
    }
    forall b | b in B
      ensures b in Image(A.Keys, h)
    {
      var a :| a in A && b == a * c && B[b] == A[a];
      assert b == h(a);
    }
    assert B.Keys == Image(A.Keys, h);
    SumImage(A.Keys, h, Density(B), Density(A));
  }

  /** Scaling keeps masses non-negative. */
  lemma ScalingNonNeg(A: Law, c: int, B: Law)
    requires NonNeg(A) && IsScaling(A, c, B)
    ensures NonNeg(B)
  {
    forall b | b in B
      ensures 0.0 <= B[b]
    {
      var a :| a in A && b == a * c && B[b] == A[a];
    }
  }

  /** By 0 every key lands on 0 and only one key's mass survives. */
  lemma ScalingByZero(A: Law, B: Law)
    requires IsScaling(A, 0, B) && A != map[]
    ensures B.Keys == {0}
    ensures exists a :: a in A && B[0] == A[a]
  {
    NonEmptyKey(A);
    var x :| x in A;
    assert x * 0 == 0;
    forall b | b in B
      ensures b == 0
    {
      var a :| a in A && b == a * 0 && B[b] == A[a];
    }
  }

  lemma NegMul(a: int, c: int)
    ensures (-a) * c == -(a * c)
  {
  }

  lemma ScaledOpposite(A: Law, c: int, B: Law, a: int, b: int)
    requires Symmetric(A) && IsScaling(A, c, B)
    requires a in A && b == a * c && B[b] == A[a]
    ensures -b in B && B[-b] == B[b]
  {
    var n := -a;
    NegMul(a, c);
    assert n in A && A[n] == A[a];
    if c == 0 {
      assert b == 0;
    } else {
      assert B[n * c] == A[n];
    }
  }

  /** Scaling keeps a symmetric law symmetric. */
  lemma ScalingSymmetric(A: Law, c: int, B: Law)
    requires Symmetric(A) && IsScaling(A, c, B)
    ensures Symmetric(B)
  {
    forall b | b in B
      ensures -b in B && B[-b] == B[b]
    {
      var a :| a in A && b == a * c && B[b] == A[a];
      ScaledOpposite(A, c, B, a, b);
    }
  }

  lemma MulMod(a: int, c: int)
    requires c != 0
    ensures (a * c) % c == 0
  {
    MulDiv(a, c);
  }

  /** Every key of the result is a multiple of `c`. */
  lemma ScalingMultiples(A: Law, c: int, B: Law)
    requires c != 0 && IsScaling(A, c, B)
    ensures forall b :: b in B ==> b % c == 0
  {
    forall b | b in B
      ensures b % c == 0
    {
      var a :| a in A && b == a * c && B[b] == A[a];
      MulMod(a, c);
    }
  }

  /** Values in [-m, m] scale to values in [-m |c|, m |c|]. */
  lemma ScalingBounded(A: Law, c: int, B: Law, m: int)
    requires Bounded(A, m) && IsScaling(A, c, B)
    ensures Bounded(B, m * Abs(c))
  {
    forall b | b in B
      ensures -(m * Abs(c)) <= b <= m * Abs(c)
    {
      var a :| a in A && b == a * c && B[b] == A[a];
      MulBounds(a, c, m, Abs(c));
    }
  }
}
