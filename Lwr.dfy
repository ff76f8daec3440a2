/** `LWR.py`: the final decryption error of plain LWR, where every noise
    term is the rounding error of switching from `q` to `p`:
    `<eps, r> - <s, eps1> + eps2`. */
module Lwr {
  import opened Outcomes
  import opened Laws
  import opened BaseLaws
  import opened Engine
  import opened Iteration
  import opened IterationPower
  import opened Params
  import opened Reports
  import opened Chains

  /** The final law for rounding law `M`. */
  ghost function LwrLaw(n: int, ks: int, kr: int, M: Law): Law
  {
    Chain(Prod(M, Cbd(kr)), n, Prod(M, Cbd(ks)), n, M)
  }

  /** `lwr_final_error_distribution(ps)`: `q` and `p` are read first, the
      rounding law is built after the two centered binomial laws. */
  ghost function FinalError(f: Fields): Result<Law>
  {
    var qv :- Field(f, "q");
    var rqv :- Field(f, "p");
    var ks :- IntField(f, "ks");
    var kr :- IntField(f, "kr");
    var M :- MsOf(qv, rqv, "p");
    var n :- IntField(f, "n");
    Ok(LwrLaw(n, ks, kr, M))
  }

  method LwrFinalErrorDistribution(f: Fields) returns (r: Result<Law>)
    ensures r == FinalError(f)
  {
    var qv :- Field(f, "q");
    var rqv :- Field(f, "p");
    var ks :- IntField(f, "ks");
    var chis := BuildCenteredBinomialLaw(ks);
    var kr :- IntField(f, "kr");
    var chir := BuildCenteredBinomialLaw(kr);
    var chiMs :- BuildMsOf(qv, rqv, "p");
    var prodEr := LawProduct(chiMs, chir);
    var n :- IntField(f, "n");
    var innerEr := IterLawConvolution(prodEr, n);
    var prodSe := LawProduct(chiMs, chis);
    var innerSe := IterLawConvolution(prodSe, n);
    var inner := LawConvolution(innerEr, innerSe);
    var final := LawConvolution(inner, chiMs);
    return Ok(final);
  }

  /** `compute_failure_probability(**params)`. */
  ghost function Failure(f: Fields): Result<Reported>
  {
    var F :- FinalError(f);
    var tv :- Field(f, "threshold");
    var p :- ThresholdTail(F, tv);
    Log2Report(p)
  }

  method ComputeFailureProbability(params: Fields) returns (r: Result<Reported>)
    ensures r == Failure(params)
  {
    var F :- LwrFinalErrorDistribution(params);
    var tv :- Field(params, "threshold");
    var p :- TailAtThreshold(F, tv);
    return Log2Report(p);
  }

  // ---------------------------------------------------------------------

  /** With int parameters and q > 0, a rounding modulus of 0 raises
      ZeroDivisionError, and any other gives the closed form. */
  lemma FinalErrorInts(f: Fields, n: int, q: int, p: int, ks: int, kr: int)
    requires HasInt(f, "n", n) && HasInt(f, "q", q) && HasInt(f, "p", p)
    requires HasInt(f, "ks", ks) && HasInt(f, "kr", kr) && q > 0
    ensures p == 0 ==> FinalError(f) == Err(DivisionByZero)
    ensures p != 0 ==> FinalError(f) == Ok(LwrLaw(n, ks, kr, MsLaw(q, p).value))
  {
    MsOfInts(q, p, "p");
  }

  /** The largest error for a rounding law on [-h, h]: `n h kr + n h ks + h`. */
  function Bound(n: int, ks: nat, kr: nat, h: nat): int
  {
    Abs(n) * (h * kr) + Abs(n) * (h * ks) + h
  }

  lemma LwrBounded(n: int, ks: nat, kr: nat, M: Law, h: nat)
    requires Bounded(M, h)
    ensures Bounded(LwrLaw(n, ks, kr, M), Bound(n, ks, kr, h))
  {
    CbdLaw(kr);
    CbdLaw(ks);
    ProdBounded(M, Cbd(kr), h, kr);
    ProdBounded(M, Cbd(ks), h, ks);
    ChainBounded(Prod(M, Cbd(kr)), n, Prod(M, Cbd(ks)), n, M, h * kr, h * ks, h);
  }

  /** The two inner products are symmetric whatever the rounding law, since
      they multiply it by a symmetric law. */
  lemma LwrInnerSymmetric(n: int, ks: int, kr: int, M: Law)
    ensures Symmetric(Inner(Prod(M, Cbd(kr)), n, Prod(M, Cbd(ks)), n))
  {
    CbdSymmetric(kr);
    CbdSymmetric(ks);
    ProdSymmetric(M, Cbd(kr));
    ProdSymmetric(M, Cbd(ks));
    ChainSymmetric(Prod(M, Cbd(kr)), n, Prod(M, Cbd(ks)), n, M);
  }

  lemma LwrMass(n: int, ks: nat, kr: nat, M: Law)
    requires NonNeg(M) && Mass(M) == 1.0
    ensures NonNeg(LwrLaw(n, ks, kr, M)) && Mass(LwrLaw(n, ks, kr, M)) <= 1.0
    ensures Unpruned(Prod(M, Cbd(kr)), Bits(n)) && Unpruned(Prod(M, Cbd(ks)), Bits(n)) ==>
      Mass(LwrLaw(n, ks, kr, M)) == 1.0
  {
    CbdLaw(kr);
    CbdLaw(ks);
    var P1, P2 := Prod(M, Cbd(kr)), Prod(M, Cbd(ks));
    ProdNonNeg(M, Cbd(kr));
    ProdNonNeg(M, Cbd(ks));
    ProdMassOne(M, Cbd(kr));
    ProdMassOne(M, Cbd(ks));
    ChainAtMostOne(P1, n, P2, n, M);
    if Unpruned(P1, Bits(n)) && Unpruned(P2, Bits(n)) {
      ChainMassOne(P1, n, P2, n, M);
    }
  }

  lemma FailureFromBound(f: Fields, n: int, ks: nat, kr: nat, M: Law, h: nat, t: real)
    requires FinalError(f) == Ok(LwrLaw(n, ks, kr, M)) && Bounded(M, h)
    requires HasNumber(f, "threshold", t) && Bound(n, ks, kr, h) as real <= t
    ensures Failure(f) == Err(MathDomain)
  {
    LwrBounded(n, ks, kr, M, h);
    ReportBeyond(LwrLaw(n, ks, kr, M), Bound(n, ks, kr, h), f["threshold"], 1.0);
  }

  /** A threshold at or beyond `n (q/2) kr + n (q/2) ks + q/2` leaves a
      failure probability of 0, and `log(0)` raises. */
  lemma FailureBeyond(f: Fields, n: int, q: int, p: int, ks: nat, kr: nat, t: real)
    requires HasInt(f, "n", n) && HasInt(f, "q", q) && HasInt(f, "p", p)
    requires HasInt(f, "ks", ks) && HasInt(f, "kr", kr) && HasNumber(f, "threshold", t)
    requires q > 0 && p != 0 && Bound(n, ks, kr, q / 2) as real <= t
    ensures Failure(f) == Err(MathDomain)
  {
    FinalErrorInts(f, n, q, p, ks, kr);
    MsOfInts(q, p, "p");
    FailureFromBound(f, n, ks, kr, MsLaw(q, p).value, q / 2, t);
  }

  lemma UnitBounded()
    ensures Bounded(Unit, 0)
  {
  }

  lemma BoundZero(n: int, ks: nat, kr: nat)
    ensures Bound(n, ks, kr, 0) == 0
  {
  }

  /** Without compression (p >= q) rounding adds no error, the final law is
      concentrated on 0, and any threshold t >= 0 makes `log(0)` raise. */
  lemma FailureWithoutRounding(f: Fields, n: int, q: int, p: int, ks: nat, kr: nat, t: real)
    requires HasInt(f, "n", n) && HasInt(f, "q", q) && HasInt(f, "p", p)
    requires HasInt(f, "ks", ks) && HasInt(f, "kr", kr) && HasNumber(f, "threshold", t)
    requires 0 < q <= p && 0.0 <= t
    ensures Failure(f) == Err(MathDomain)
  {
    FinalErrorInts(f, n, q, p, ks, kr);
    MsOfExact(q, p, "p");
    UnitBounded();
    BoundZero(n, ks, kr);
    FailureFromBound(f, n, ks, kr, Unit, 0, t);
  }
}
