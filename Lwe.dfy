/** `LWE.py`: the final decryption error `<e, r> - <s, e1> + e2` of plain
    LWE, and the base-2 logarithm of its failure probability. */
module Lwe {
  import opened Outcomes
  import opened Laws
  import opened BaseLaws
  import opened Engine
  import opened Iteration
  import opened IterationPower
  import opened Params
  import opened Reports
  import opened Chains

  /** The final law for the given parameters: the n-fold sums of
      `e_pk * r` and of `s * e1`, plus `e2`. */
  ghost function LweLaw(n: int, ks: int, kePk: int, kr: int, ke: int): Law
  {
    Chain(Prod(Cbd(kePk), Cbd(kr)), n, Prod(Cbd(ks), Cbd(ke)), n, Cbd(ke))
  }

  /** `lwe_final_error_distribution(ps)`, reading the fields in the order
      the source does. */
  ghost function FinalError(f: Fields): Result<Law>
  {
    var ks :- IntField(f, "ks");
    var kePk :- IntField(f, "ke_pk");
    var kr :- IntField(f, "kr");
    var ke :- IntField(f, "ke");
    var n :- IntField(f, "n");
    Ok(LweLaw(n, ks, kePk, kr, ke))
  }

  method LweFinalErrorDistribution(f: Fields) returns (r: Result<Law>)
    ensures r == FinalError(f)
  {
    var ks :- IntField(f, "ks");
    var chis := BuildCenteredBinomialLaw(ks);
    var kePk :- IntField(f, "ke_pk");
    var chiePk := BuildCenteredBinomialLaw(kePk);
    var kr :- IntField(f, "kr");
    var chir := BuildCenteredBinomialLaw(kr);
    var ke :- IntField(f, "ke");
    var chie := BuildCenteredBinomialLaw(ke);
    var prodEr := LawProduct(chiePk, chir);
    var n :- IntField(f, "n");
    var innerEr := IterLawConvolution(prodEr, n);
    var prodSe := LawProduct(chis, chie);
    var innerSe := IterLawConvolution(prodSe, n);
    var inner := LawConvolution(innerEr, innerSe);
    var final := LawConvolution(inner, chie);
    return Ok(final);
  }

  /** `compute_failure_probability(**params)`: `log(proba) / log(2)` of the
      tail beyond `threshold`. */
  ghost function Failure(f: Fields): Result<Reported>
  {
    var F :- FinalError(f);
    var tv :- Field(f, "threshold");
    var p :- ThresholdTail(F, tv);
    Log2Report(p)
  }

  method ComputeFailureProbability(params: Fields) returns (r: Result<Reported>)
    ensures r == Failure(params)
  {
    var F :- LweFinalErrorDistribution(params);
    var tv :- Field(params, "threshold");
    var p :- TailAtThreshold(F, tv);
    return Log2Report(p);
  }

  // ---------------------------------------------------------------------

  const Names := ["ks", "ke_pk", "kr", "ke", "n"]

  /** The final law exists exactly when the five size parameters are ints,
      and it is then the closed form. */
  lemma FinalErrorSpec(f: Fields)
    ensures FinalError(f).Ok? <==> IntFields(f, Names)
    ensures FinalError(f).Ok? ==>
      FinalError(f).value == LweLaw(f["n"].i, f["ks"].i, f["ke_pk"].i, f["kr"].i, f["ke"].i)
  {
    if IntFields(f, Names) {
      assert Names[0] == "ks" && Names[1] == "ke_pk" && Names[2] == "kr" && Names[3] == "ke" && Names[4] == "n";
    }
  }

  /** The largest error: `n ke_pk kr + n ks ke + ke`. */
  function Bound(n: int, ks: nat, kePk: nat, kr: nat, ke: nat): int
  {
    Abs(n) * (kePk * kr) + Abs(n) * (ks * ke) + ke
  }

  lemma LweBounded(n: int, ks: nat, kePk: nat, kr: nat, ke: nat)
    ensures Bounded(LweLaw(n, ks, kePk, kr, ke), Bound(n, ks, kePk, kr, ke))
  {
    CbdProduct(kePk, kr);
    CbdProduct(ks, ke);
    CbdLaw(ke);
    ChainBounded(Prod(Cbd(kePk), Cbd(kr)), n, Prod(Cbd(ks), Cbd(ke)), n, Cbd(ke), kePk * kr, ks * ke, ke);
  }

  /** All parts are symmetric, so the final law is: the subtraction in
      `<e, r> - <s, e1>` is an addition. */
  lemma LweSymmetric(n: int, ks: int, kePk: int, kr: int, ke: int)
    ensures Symmetric(LweLaw(n, ks, kePk, kr, ke))
  {
    CbdSymmetric(kr);
    CbdSymmetric(ke);
    ProdSymmetric(Cbd(kePk), Cbd(kr));
    ProdSymmetric(Cbd(ks), Cbd(ke));
    ChainSymmetric(Prod(Cbd(kePk), Cbd(kr)), n, Prod(Cbd(ks), Cbd(ke)), n, Cbd(ke));
  }

  /** Pruning only drops mass; with nothing pruned the law sums to 1. */
  lemma LweMass(n: int, ks: nat, kePk: nat, kr: nat, ke: nat)
    ensures NonNeg(LweLaw(n, ks, kePk, kr, ke)) && Mass(LweLaw(n, ks, kePk, kr, ke)) <= 1.0
    ensures Unpruned(Prod(Cbd(kePk), Cbd(kr)), Bits(n)) && Unpruned(Prod(Cbd(ks), Cbd(ke)), Bits(n)) ==>
      Mass(LweLaw(n, ks, kePk, kr, ke)) == 1.0
  {
    CbdProduct(kePk, kr);
    CbdProduct(ks, ke);
    CbdLaw(ke);
    var P1, P2 := Prod(Cbd(kePk), Cbd(kr)), Prod(Cbd(ks), Cbd(ke));
    ChainAtMostOne(P1, n, P2, n, Cbd(ke));
    if Unpruned(P1, Bits(n)) && Unpruned(P2, Bits(n)) {
      ChainMassOne(P1, n, P2, n, Cbd(ke));
    }
  }

  /** A threshold at or beyond the largest error leaves a failure
      probability of 0, and `log(0)` raises. */
  lemma FailureBeyond(f: Fields, n: int, ks: nat, kePk: nat, kr: nat, ke: nat, t: real)
    requires HasInt(f, "n", n) && HasInt(f, "ks", ks) && HasInt(f, "ke_pk", kePk)
    requires HasInt(f, "kr", kr) && HasInt(f, "ke", ke) && HasNumber(f, "threshold", t)
    requires Bound(n, ks, kePk, kr, ke) as real <= t
    ensures Failure(f) == Err(MathDomain)
  {
    LweBounded(n, ks, kePk, kr, ke);
    ReportBeyond(LweLaw(n, ks, kePk, kr, ke), Bound(n, ks, kePk, kr, ke), f["threshold"], 1.0);
  }
}
