/** The shape shared by the LWE, LWR, RLWR and 2n schemes: two products of
    laws, each iterated over the coefficients of an inner product, their
    convolution, and one more additive law:
    `law_convolution(law_convolution(iter(P1, n1), iter(P2, n2)), Z)`. */
module Chains {
  import opened Laws
  import opened RealPowers
  import opened Iteration
  import opened IterationMass
  import opened IterationPower
  import opened ConvPowers
  import opened BaseLaws
  import opened Outcomes
  import opened Params

  ghost function Chain(P1: Law, n1: int, P2: Law, n2: int, Z: Law): Law
  {
    Conv(Conv(IterLaw(P1, n1), IterLaw(P2, n2)), Z)
  }

  /** The two iterated products, before the additive law. */
  ghost function Inner(P1: Law, n1: int, P2: Law, n2: int): Law
  {
    Conv(IterLaw(P1, n1), IterLaw(P2, n2))
  }

  // ---------------------------------------------------------------------
  // Support

  /** Every value of the final law lies within the sum of the bounds of its
      parts: |n1| m1 + |n2| m2 + mz. */
  lemma ChainBounded(P1: Law, n1: int, P2: Law, n2: int, Z: Law, m1: int, m2: int, mz: int)
    requires Bounded(P1, m1) && Bounded(P2, m2) && Bounded(Z, mz)
    ensures Bounded(Chain(P1, n1, P2, n2, Z), Abs(n1) * m1 + Abs(n2) * m2 + mz)
  {
    IterPreserves(P1, n1, m1);
    IterPreserves(P2, n2, m2);
    ConvBounded(IterLaw(P1, n1), IterLaw(P2, n2), Abs(n1) * m1, Abs(n2) * m2);
    ConvBounded(Inner(P1, n1, P2, n2), Z, Abs(n1) * m1 + Abs(n2) * m2, mz);
  }

  /** Symmetric products give a symmetric inner sum, and with a symmetric
      additive law a symmetric final law. */
  lemma ChainSymmetric(P1: Law, n1: int, P2: Law, n2: int, Z: Law)
    requires Symmetric(P1) && Symmetric(P2)
    ensures Symmetric(Inner(P1, n1, P2, n2))
    ensures Symmetric(Z) ==> Symmetric(Chain(P1, n1, P2, n2, Z))
  {
    RunSymmetric(P1, Bits(n1));
    RunSymmetric(P2, Bits(n2));
    ConvSymmetric(IterLaw(P1, n1), IterLaw(P2, n2));
    if Symmetric(Z) {
      ConvSymmetric(Inner(P1, n1, P2, n2), Z);
    }
  }

  // ---------------------------------------------------------------------
  // Mass

  lemma {:induction false} RPowAtMostOne(x: real, n: nat)
    requires 0.0 <= x <= 1.0
    ensures 0.0 <= RPow(x, n) <= 1.0
  {
    if n > 0 {
      RPowAtMostOne(x, n - 1);
      MulAtMostOne(x, RPow(x, n - 1));
    }
  }

  lemma {:induction false} RPowOne(n: nat)
    ensures RPow(1.0, n) == 1.0
  {
    if n > 0 {
      RPowOne(n - 1);
    }
  }

  lemma MulAtMostOne(x: real, y: real)
    requires 0.0 <= x <= 1.0 && 0.0 <= y <= 1.0
    ensures 0.0 <= x * y <= 1.0
  {
    MulNonNeg(x, y);
    MulNonNeg(1.0 - x, y);
    assert (1.0 - x) * y == y - x * y;
  }

  /** A sub-probability law stays one under iteration. */
  lemma IterAtMostOne(A: Law, i: int)
    requires NonNeg(A) && Mass(A) <= 1.0
    ensures NonNeg(IterLaw(A, i)) && Mass(IterLaw(A, i)) <= 1.0
  {
    IterMass(A, i);
    MassNonNeg(A);
    RPowAtMostOne(Mass(A), Abs(i));
  }

  lemma ConvAtMostOne(X: Law, Y: Law)
    requires NonNeg(X) && NonNeg(Y) && Mass(X) <= 1.0 && Mass(Y) <= 1.0
    ensures NonNeg(Conv(X, Y)) && Mass(Conv(X, Y)) <= 1.0
  {
    ConvMass(X, Y);
    ConvNonNeg(X, Y);
    MassNonNeg(X);
    MassNonNeg(Y);
    MulAtMostOne(Mass(X), Mass(Y));
  }

  lemma ProdAtMostOne(X: Law, Y: Law)
    requires NonNeg(X) && NonNeg(Y) && Mass(X) <= 1.0 && Mass(Y) <= 1.0
    ensures NonNeg(Prod(X, Y)) && Mass(Prod(X, Y)) <= 1.0
  {
    ProdMass(X, Y);
    ProdNonNeg(X, Y);
    MassNonNeg(X);
    MassNonNeg(Y);
    MulAtMostOne(Mass(X), Mass(Y));
  }

  lemma PowerMassOne(A: Law, n: nat)
    requires Mass(A) == 1.0
    ensures Mass(ConvPower(A, n)) == 1.0
  {
    ConvPowerMass(A, n);
    RPowOne(n);
  }

  /** Without pruning, a probability law stays one under iteration. */
  lemma IterMassOne(A: Law, i: int)
    requires Mass(A) == 1.0 && Unpruned(A, Bits(i))
    ensures Mass(IterLaw(A, i)) == 1.0
  {
    IterUnpruned(A, i);
    PowerMassOne(A, Abs(i));
  }

  lemma ConvMassOne(X: Law, Y: Law)
    requires Mass(X) == 1.0 && Mass(Y) == 1.0
    ensures Mass(Conv(X, Y)) == 1.0
  {
    ConvMass(X, Y);
  }

  lemma ProdMassOne(X: Law, Y: Law)
    requires Mass(X) == 1.0 && Mass(Y) == 1.0
    ensures Mass(Prod(X, Y)) == 1.0
  {
    ProdMass(X, Y);
  }

  /** Pruning only loses mass: with sub-probability parts the final law is
      a sub-probability law. */
  lemma ChainAtMostOne(P1: Law, n1: int, P2: Law, n2: int, Z: Law)
    requires NonNeg(P1) && NonNeg(P2) && NonNeg(Z)
    requires Mass(P1) <= 1.0 && Mass(P2) <= 1.0 && Mass(Z) <= 1.0
    ensures NonNeg(Chain(P1, n1, P2, n2, Z)) && Mass(Chain(P1, n1, P2, n2, Z)) <= 1.0
  {
    IterAtMostOne(P1, n1);
    IterAtMostOne(P2, n2);
    ConvAtMostOne(IterLaw(P1, n1), IterLaw(P2, n2));
    ConvAtMostOne(Inner(P1, n1, P2, n2), Z);
  }

  /** When neither iteration prunes anything, the final law of probability
      laws is a probability law. */
  lemma ChainMassOne(P1: Law, n1: int, P2: Law, n2: int, Z: Law)
    requires Mass(P1) == 1.0 && Mass(P2) == 1.0 && Mass(Z) == 1.0
    requires Unpruned(P1, Bits(n1)) && Unpruned(P2, Bits(n2))
    ensures Mass(Chain(P1, n1, P2, n2, Z)) == 1.0
  {
    IterMassOne(P1, n1);
    IterMassOne(P2, n2);
    ConvMassOne(IterLaw(P1, n1), IterLaw(P2, n2));
    ConvMassOne(Inner(P1, n1, P2, n2), Z);
  }

  // ---------------------------------------------------------------------
  // The centered binomial parts

  /** `build_centered_binomial_law(k)` for k >= 0 is a symmetric
      probability law on [-k, k]. */
  lemma CbdLaw(k: int)
    requires k >= 0
    ensures NonNeg(Cbd(k)) && Mass(Cbd(k)) == 1.0 && Symmetric(Cbd(k)) && Bounded(Cbd(k), k)
  {
    CbdPositive(k);
    CbdMass(k);
    CbdSymmetric(k);
  }

  /** The product of two centered binomial laws: symmetric, a probability
      law, on [-a b, a b]. */
  lemma CbdProduct(a: int, b: int)
    requires a >= 0 && b >= 0
    ensures NonNeg(Prod(Cbd(a), Cbd(b))) && Mass(Prod(Cbd(a), Cbd(b))) == 1.0
    ensures Symmetric(Prod(Cbd(a), Cbd(b))) && Bounded(Prod(Cbd(a), Cbd(b)), a * b)
  {
    CbdLaw(a);
    CbdLaw(b);
    ProdNonNeg(Cbd(a), Cbd(b));
    ProdMassOne(Cbd(a), Cbd(b));
    ProdSymmetric(Cbd(a), Cbd(b));
    ProdBounded(Cbd(a), Cbd(b), a, b);
  }

  // ---------------------------------------------------------------------
  // The mod-switching part

  /** `build_mod_switching_error_law(ps.q, ps.<rq>)` on field values:
      `range(q)` needs an int `q`, and `rq` is looked at only inside the
      loop, so for q <= 0 it is never used. */
  ghost function MsOf(qv: Value, rqv: Value, rqName: string): Result<Law>
  {
    var q :- AsInt(qv, "q");
    if q <= 0 then Ok(map[])
    else
      var rq :- AsInt(rqv, rqName);
      MsLaw(q, rq)
  }

  method BuildMsOf(qv: Value, rqv: Value, rqName: string) returns (r: Result<Law>)
    ensures r == MsOf(qv, rqv, rqName)
  {
    var q :- AsInt(qv, "q");
    if q <= 0 {
      r := BuildModSwitchingErrorLaw(q, 0);
      return;
    }
    var rq :- AsInt(rqv, rqName);
    r := BuildModSwitchingErrorLaw(q, rq);
  }

  /** With int moduli, q > 0 and rq != 0, the law is a probability law on
      [-q/2, q/2]; rq = 0 raises ZeroDivisionError. */
  lemma MsOfInts(q: int, rq: int, rqName: string)
    requires q > 0
    ensures MsOf(Int(q), Int(rq), rqName) == MsLaw(q, rq)
    ensures rq == 0 ==> MsOf(Int(q), Int(rq), rqName) == Err(DivisionByZero)
    ensures rq != 0 ==>
      var M := MsLaw(q, rq).value;
      NonNeg(M) && Mass(M) == 1.0 && Bounded(M, q / 2)
  {
    MsLawMass(q, rq);
  }

  /** Without compression (rq >= q) there is no rounding error. */
  lemma MsOfExact(q: int, rq: int, rqName: string)
    requires 0 < q <= rq
    ensures MsOf(Int(q), Int(rq), rqName) == Ok(Unit)
  {
    MsLawExact(q, rq);
  }
}
