/** `RLWR.py`: ring LWR over X^n + 1. There is no LWE noise; each term is
    the secret `s` times a rounding error: of the public key (`rqk`), of
    `u` (`rqc`), plus the rounding error of `v` (`rq2`). */
module Rlwr {
  import opened Outcomes
  import opened Laws
  import opened BaseLaws
  import opened Engine
  import opened Iteration
  import opened IterationPower
  import opened Params
  import opened Reports
  import opened Chains

  ghost function RlwrLaw(n: int, ks: int, Rk: Law, Rc: Law, R2: Law): Law
  {
    Chain(Prod(Cbd(ks), Rk), n, Prod(Cbd(ks), Rc), n, R2)
  }

  /** `rlwr_final_error_distribution(ps)`, reading the fields in the order
      the source does. */
  ghost function FinalError(f: Fields): Result<Law>
  {
    var ks :- IntField(f, "ks");
    var qv :- Field(f, "q");
    var rqkv :- Field(f, "rqk");
    var Rk :- MsOf(qv, rqkv, "rqk");
    var n :- IntField(f, "n");
    var rqcv :- Field(f, "rqc");
    var Rc :- MsOf(qv, rqcv, "rqc");
    var rq2v :- Field(f, "rq2");
    var R2 :- MsOf(qv, rq2v, "rq2");
    Ok(RlwrLaw(n, ks, Rk, Rc, R2))
  }

  method RlwrFinalErrorDistribution(f: Fields) returns (r: Result<Law>)
    ensures r == FinalError(f)
  {
    var ks :- IntField(f, "ks");
    var s := BuildCenteredBinomialLaw(ks);
    var qv :- Field(f, "q");
    var rqkv :- Field(f, "rqk");
    var e :- BuildMsOf(qv, rqkv, "rqk");
    var re := LawProduct(s, e);
    var n :- IntField(f, "n");
    var D1 := IterLawConvolution(re, n);
    var rqcv :- Field(f, "rqc");
    var e1 :- BuildMsOf(qv, rqcv, "rqc");
    var re1 := LawProduct(s, e1);
    var D2 := IterLawConvolution(re1, n);
    var D := LawConvolution(D1, D2);
    var rq2v :- Field(f, "rq2");
    var e2 :- BuildMsOf(qv, rq2v, "rq2");
    D := LawConvolution(D, e2);
    return Ok(D);
  }

  /** `compute_failure_probability(**params)`: `log(n * proba) / log(2)`. */
  ghost function Failure(f: Fields): Result<Reported>
  {
    var F :- FinalError(f);
    PerCoefficient(f, F)
  }

  method ComputeFailureProbability(params: Fields) returns (r: Result<Reported>)
    ensures r == Failure(params)
  {
    var F :- RlwrFinalErrorDistribution(params);
    r := ReportPerCoefficient(params, F);
  }

  // ---------------------------------------------------------------------

  /** With int parameters and q > 0 the law exists exactly when no
      rounding modulus is 0; it is then the closed form. */
  lemma FinalErrorInts(f: Fields, n: int, q: int, rqk: int, rqc: int, rq2: int, ks: int)
    requires HasInt(f, "n", n) && HasInt(f, "q", q) && HasInt(f, "rqk", rqk)
    requires HasInt(f, "rqc", rqc) && HasInt(f, "rq2", rq2) && HasInt(f, "ks", ks) && q > 0
    ensures FinalError(f).Err? <==> rqk == 0 || rqc == 0 || rq2 == 0
    ensures FinalError(f).Err? ==> FinalError(f).error == DivisionByZero
    ensures FinalError(f).Ok? ==>
      FinalError(f).value == RlwrLaw(n, ks, MsLaw(q, rqk).value, MsLaw(q, rqc).value, MsLaw(q, rq2).value)
  {
    MsOfInts(q, rqk, "rqk");
    MsOfInts(q, rqc, "rqc");
    MsOfInts(q, rq2, "rq2");
    var Rk, Rc, R2 := MsOf(Int(q), Int(rqk), "rqk"), MsOf(Int(q), Int(rqc), "rqc"), MsOf(Int(q), Int(rq2), "rq2");
    if rqk == 0 {
      assert FinalError(f) == Err(DivisionByZero);
    } else if rqc == 0 {
      assert FinalError(f) == Err(DivisionByZero);
    } else if rq2 == 0 {
      assert FinalError(f) == Err(DivisionByZero);
    } else {
      assert FinalError(f) == Ok(RlwrLaw(n, ks, Rk.value, Rc.value, R2.value));
    }
  }

  /** The builder never reads `kr`: the randomness of encryption is the
      secret itself. */
  lemma IgnoresKr(f: Fields, v: Value)
    ensures FinalError(f["kr" := v]) == FinalError(f)
  {
    var g := f["kr" := v];
    assert IntField(g, "ks") == IntField(f, "ks") && IntField(g, "n") == IntField(f, "n");
    assert Field(g, "q") == Field(f, "q") && Field(g, "rqk") == Field(f, "rqk");
    assert Field(g, "rqc") == Field(f, "rqc") && Field(g, "rq2") == Field(f, "rq2");
  }

  /** Nor does the report. */
  lemma FailureIgnoresKr(f: Fields, v: Value)
    ensures Failure(f["kr" := v]) == Failure(f)
  {
    IgnoresKr(f, v);
    var g := f["kr" := v];
    if FinalError(f).Ok? {
      var F := FinalError(f).value;
      assert Field(g, "threshold") == Field(f, "threshold") && IntField(g, "n") == IntField(f, "n");
      assert PerCoefficient(g, F) == PerCoefficient(f, F);
    }
  }

  /** Without compression of the public key (rqk >= q) the first term
      carries no error at all: it is the law concentrated on 0. */
  lemma KeyUncompressed(q: int, rqk: int, ks: nat)
    requires 0 < q <= rqk
    ensures MsLaw(q, rqk) == Ok(Unit)
    ensures Prod(Cbd(ks), Unit) == Unit
  {
    MsLawExact(q, rqk);
    CbdLaw(ks);
    assert Cbd(ks) != map[] by {
      assert Mass(map[]) == 0.0;
    }
    ProdUnitRight(Cbd(ks));
  }

  /** The largest error for rounding laws on [-h, h]: `2 n ks h + h`. */
  function Bound(n: int, ks: nat, h: nat): int
  {
    Abs(n) * (ks * h) + Abs(n) * (ks * h) + h
  }

  lemma RlwrBounded(n: int, ks: nat, Rk: Law, Rc: Law, R2: Law, h: nat)
    requires Bounded(Rk, h) && Bounded(Rc, h) && Bounded(R2, h)
    ensures Bounded(RlwrLaw(n, ks, Rk, Rc, R2), Bound(n, ks, h))
  {
    CbdPositive(ks);
    ShapeBounded(n, Cbd(ks), Rk, Rc, R2, ks, h);
  }

  lemma ShapeBounded(n: int, S: Law, Rk: Law, Rc: Law, R2: Law, ks: nat, h: nat)
    requires Bounded(S, ks) && Bounded(Rk, h) && Bounded(Rc, h) && Bounded(R2, h)
    ensures Bounded(Chain(Prod(S, Rk), n, Prod(S, Rc), n, R2), Bound(n, ks, h))
  {
    ProdBounded(S, Rk, ks, h);
    ProdBounded(S, Rc, ks, h);
    ChainBounded(Prod(S, Rk), n, Prod(S, Rc), n, R2, ks * h, ks * h, h);
  }

  /** Each product has the symmetric secret as a factor, so the inner sum
      is symmetric whatever the rounding laws. */
  lemma RlwrInnerSymmetric(n: int, ks: int, Rk: Law, Rc: Law)
    ensures Symmetric(Inner(Prod(Cbd(ks), Rk), n, Prod(Cbd(ks), Rc), n))
  {
    CbdSymmetric(ks);
    ProdCommutes(Cbd(ks), Rk);
    ProdCommutes(Cbd(ks), Rc);
    ProdSymmetric(Rk, Cbd(ks));
    ProdSymmetric(Rc, Cbd(ks));
    ChainSymmetric(Prod(Cbd(ks), Rk), n, Prod(Cbd(ks), Rc), n, Unit);
  }

  lemma RlwrMass(n: int, ks: nat, Rk: Law, Rc: Law, R2: Law)
    requires NonNeg(Rk) && NonNeg(Rc) && NonNeg(R2)
    requires Mass(Rk) == 1.0 && Mass(Rc) == 1.0 && Mass(R2) == 1.0
    ensures NonNeg(RlwrLaw(n, ks, Rk, Rc, R2)) && Mass(RlwrLaw(n, ks, Rk, Rc, R2)) <= 1.0
    ensures Unpruned(Prod(Cbd(ks), Rk), Bits(n)) && Unpruned(Prod(Cbd(ks), Rc), Bits(n)) ==>
      Mass(RlwrLaw(n, ks, Rk, Rc, R2)) == 1.0
  {
    CbdLaw(ks);
    var P1, P2 := Prod(Cbd(ks), Rk), Prod(Cbd(ks), Rc);
    ProdNonNeg(Cbd(ks), Rk);
    ProdNonNeg(Cbd(ks), Rc);
    ProdMassOne(Cbd(ks), Rk);
    ProdMassOne(Cbd(ks), Rc);
    ChainAtMostOne(P1, n, P2, n, R2);
    if Unpruned(P1, Bits(n)) && Unpruned(P2, Bits(n)) {
      ChainMassOne(P1, n, P2, n, R2);
    }
  }

  /** With int parameters, q > 0 and no modulus 0, every value of the final
      law lies within `2 n ks (q/2) + q/2`. */
  lemma FinalErrorBounded(f: Fields, n: int, q: int, rqk: int, rqc: int, rq2: int, ks: nat)
    requires HasInt(f, "n", n) && HasInt(f, "q", q) && HasInt(f, "rqk", rqk)
    requires HasInt(f, "rqc", rqc) && HasInt(f, "rq2", rq2) && HasInt(f, "ks", ks)
    requires q > 0 && rqk != 0 && rqc != 0 && rq2 != 0
    ensures FinalError(f).Ok?
    ensures Bounded(FinalError(f).value, Bound(n, ks, q / 2))
  {
    FinalErrorInts(f, n, q, rqk, rqc, rq2, ks);
    MsOfInts(q, rqk, "rqk");
    MsOfInts(q, rqc, "rqc");
    MsOfInts(q, rq2, "rq2");
    RlwrBounded(n, ks, MsLaw(q, rqk).value, MsLaw(q, rqc).value, MsLaw(q, rq2).value, q / 2);
  }

  lemma FinalErrorMass(f: Fields, n: int, q: int, rqk: int, rqc: int, rq2: int, ks: nat)
    requires HasInt(f, "n", n) && HasInt(f, "q", q) && HasInt(f, "rqk", rqk)
    requires HasInt(f, "rqc", rqc) && HasInt(f, "rq2", rq2) && HasInt(f, "ks", ks)
    requires q > 0 && rqk != 0 && rqc != 0 && rq2 != 0
    ensures FinalError(f).Ok?
    ensures NonNeg(FinalError(f).value) && Mass(FinalError(f).value) <= 1.0
  {
    FinalErrorInts(f, n, q, rqk, rqc, rq2, ks);
    MsOfInts(q, rqk, "rqk");
    MsOfInts(q, rqc, "rqc");
    MsOfInts(q, rq2, "rq2");
    RlwrMass(n, ks, MsLaw(q, rqk).value, MsLaw(q, rqc).value, MsLaw(q, rq2).value);
  }

  /** A threshold at or beyond that bound leaves a tail of 0, and
      `log(n * 0)` raises. */
  lemma FailureBeyond(f: Fields, n: int, q: int, rqk: int, rqc: int, rq2: int, ks: nat, t: real)
    requires HasInt(f, "n", n) && HasInt(f, "q", q) && HasInt(f, "rqk", rqk)
    requires HasInt(f, "rqc", rqc) && HasInt(f, "rq2", rq2) && HasInt(f, "ks", ks)
    requires HasNumber(f, "threshold", t) && q > 0 && rqk != 0 && rqc != 0 && rq2 != 0
    requires Bound(n, ks, q / 2) as real <= t
    ensures Failure(f) == Err(MathDomain)
  {
    FinalErrorBounded(f, n, q, rqk, rqc, rq2, ks);
    PerCoefficientBeyond(f, FinalError(f).value, Bound(n, ks, q / 2), n, t);
  }
}
