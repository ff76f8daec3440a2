/** The noise shape of the 2n schemes (RLWE_2n, MLWE_2n), `r e - s (e1 +
    e'') + e2 + e'`: the key term `e (r + rounding of the key)`, the
    ciphertext term `s (e1 + rounding of u)`, each summed `N` times, plus
    the rounding of `v` and `e2`. */
module TwoN {
  import opened Laws
  import opened BaseLaws
  import opened Iteration
  import opened IterationPower
  import opened Chains

  /** `law_product(chie_pk, law_convolution(chir, Rk))`. */
  ghost function KeyTerm(ke: int, ks: int, Rk: Law): Law
  {
    Prod(Cbd(ke), Conv(Cbd(ks), Rk))
  }

  /** `law_product(chis, law_convolution(chie, Rc))`. */
  ghost function CtTerm(ks: int, keCt: int, Rc: Law): Law
  {
    Prod(Cbd(ks), Conv(Cbd(keCt), Rc))
  }

  ghost function TwoNLaw(N: int, ks: int, ke: int, keCt: int, Rk: Law, Rc: Law, R2: Law): Law
  {
    Chain(KeyTerm(ke, ks, Rk), N, CtTerm(ks, keCt, Rc), N, Conv(R2, Cbd(keCt)))
  }

  /** The largest error when every rounding law lies in [-h, h]. */
  function Bound(N: int, ks: nat, ke: nat, keCt: nat, h: nat): int
  {
    Abs(N) * (ke * (ks + h)) + Abs(N) * (ks * (keCt + h)) + (h + keCt)
  }

  lemma TwoNBounded(N: int, ks: nat, ke: nat, keCt: nat, Rk: Law, Rc: Law, R2: Law, h: nat)
    requires Bounded(Rk, h) && Bounded(Rc, h) && Bounded(R2, h)
    ensures Bounded(TwoNLaw(N, ks, ke, keCt, Rk, Rc, R2), Bound(N, ks, ke, keCt, h))
  {
    CbdBounded(ke);
    CbdBounded(ks);
    CbdBounded(keCt);
    ShapeBounded(N, Cbd(ks), Cbd(ke), Cbd(keCt), Rk, Rc, R2, ks, ke, keCt, h);
  }

  /** The same bound over any laws with the bounds of the binomial ones. */
  lemma ShapeBounded(N: int, S: Law, E: Law, E1: Law, Rk: Law, Rc: Law, R2: Law, ks: nat, ke: nat, keCt: nat, h: nat)
    requires Bounded(S, ks) && Bounded(E, ke) && Bounded(E1, keCt)
    requires Bounded(Rk, h) && Bounded(Rc, h) && Bounded(R2, h)
    ensures Bounded(Chain(Prod(E, Conv(S, Rk)), N, Prod(S, Conv(E1, Rc)), N, Conv(R2, E1)), Bound(N, ks, ke, keCt, h))
  {
    ProdConvBounded(E, S, Rk, ke, ks, h, ke * (ks + h));
    ProdConvBounded(S, E1, Rc, ks, keCt, h, ks * (keCt + h));
    ConvBounded(R2, E1, h, keCt);
    ChainBounded(Prod(E, Conv(S, Rk)), N, Prod(S, Conv(E1, Rc)), N, Conv(R2, E1),
      ke * (ks + h), ks * (keCt + h), h + keCt);
  }

  lemma CbdBounded(k: nat)
    ensures Bounded(Cbd(k), k)
  {
    CbdPositive(k);
  }

  /** `Prod(A, Conv(B, R))` lies in [-a (b + h), a (b + h)]. */
  lemma ProdConvBounded(A: Law, B: Law, R: Law, a: int, b: int, h: int, m: int)
    requires Bounded(A, a) && Bounded(B, b) && Bounded(R, h) && m == a * (b + h)
    ensures Bounded(Prod(A, Conv(B, R)), m)
  {
    ConvBounded(B, R, b, h);
    ProdBoundedBy(A, Conv(B, R), a, b + h, m);
  }

  lemma ProdBoundedBy(A: Law, C: Law, a: int, c: int, m: int)
    requires Bounded(A, a) && Bounded(C, c) && m == a * c
    ensures Bounded(Prod(A, C), m)
  {
    ProdBounded(A, C, a, c);
  }

  /** A product with a symmetric left factor is symmetric. */
  lemma ProdSymmetricLeft(A: Law, B: Law)
    requires Symmetric(A)
    ensures Symmetric(Prod(A, B))
  {
    ProdCommutes(A, B);
    ProdSymmetric(B, A);
  }

  /** Both products have a centered binomial factor, so the sum of the two
      inner products is symmetric whatever the rounding laws. */
  lemma TwoNInnerSymmetric(N: int, ks: int, ke: int, keCt: int, Rk: Law, Rc: Law)
    ensures Symmetric(Inner(KeyTerm(ke, ks, Rk), N, CtTerm(ks, keCt, Rc), N))
  {
    CbdSymmetric(ke);
    CbdSymmetric(ks);
    ProdSymmetricLeft(Cbd(ke), Conv(Cbd(ks), Rk));
    ProdSymmetricLeft(Cbd(ks), Conv(Cbd(keCt), Rc));
    ChainSymmetric(KeyTerm(ke, ks, Rk), N, CtTerm(ks, keCt, Rc), N, Unit);
  }

  lemma TermsMassOne(ks: nat, ke: nat, keCt: nat, Rk: Law, Rc: Law)
    requires NonNeg(Rk) && NonNeg(Rc) && Mass(Rk) == 1.0 && Mass(Rc) == 1.0
    ensures NonNeg(KeyTerm(ke, ks, Rk)) && Mass(KeyTerm(ke, ks, Rk)) == 1.0
    ensures NonNeg(CtTerm(ks, keCt, Rc)) && Mass(CtTerm(ks, keCt, Rc)) == 1.0
  {
    CbdLaw(ks);
    CbdLaw(ke);
    CbdLaw(keCt);
    ConvNonNeg(Cbd(ks), Rk);
    ConvNonNeg(Cbd(keCt), Rc);
    ConvMassOne(Cbd(ks), Rk);
    ConvMassOne(Cbd(keCt), Rc);
    ProdNonNeg(Cbd(ke), Conv(Cbd(ks), Rk));
    ProdNonNeg(Cbd(ks), Conv(Cbd(keCt), Rc));
    ProdMassOne(Cbd(ke), Conv(Cbd(ks), Rk));
    ProdMassOne(Cbd(ks), Conv(Cbd(keCt), Rc));
  }

  lemma TailTermMassOne(keCt: nat, R2: Law)
    requires NonNeg(R2) && Mass(R2) == 1.0
    ensures NonNeg(Conv(R2, Cbd(keCt))) && Mass(Conv(R2, Cbd(keCt))) == 1.0
  {
    CbdLaw(keCt);
    ConvNonNeg(R2, Cbd(keCt));
    ConvMassOne(R2, Cbd(keCt));
  }

  /** With probability laws for the roundings the final law is a
      sub-probability law, a probability law when nothing is pruned. */
  lemma TwoNMass(N: int, ks: nat, ke: nat, keCt: nat, Rk: Law, Rc: Law, R2: Law)
    requires NonNeg(Rk) && NonNeg(Rc) && NonNeg(R2)
    requires Mass(Rk) == 1.0 && Mass(Rc) == 1.0 && Mass(R2) == 1.0
    ensures NonNeg(TwoNLaw(N, ks, ke, keCt, Rk, Rc, R2)) && Mass(TwoNLaw(N, ks, ke, keCt, Rk, Rc, R2)) <= 1.0
    ensures Unpruned(KeyTerm(ke, ks, Rk), Bits(N)) && Unpruned(CtTerm(ks, keCt, Rc), Bits(N)) ==>
      Mass(TwoNLaw(N, ks, ke, keCt, Rk, Rc, R2)) == 1.0
  {
    TermsMassOne(ks, ke, keCt, Rk, Rc);
    TailTermMassOne(keCt, R2);
    var P1, P2, Z := KeyTerm(ke, ks, Rk), CtTerm(ks, keCt, Rc), Conv(R2, Cbd(keCt));
    ChainAtMostOne(P1, N, P2, N, Z);
    if Unpruned(P1, Bits(N)) && Unpruned(P2, Bits(N)) {
      ChainMassOne(P1, N, P2, N, Z);
    }
  }

  /** An uncompressed public key adds no rounding: the key term is the
      plain product `e r`. */
  lemma KeyTermUncompressed(ke: int, ks: int)
    ensures KeyTerm(ke, ks, Unit) == Prod(Cbd(ke), Cbd(ks))
  {
    ConvUnitRight(Cbd(ks));
  }
}
