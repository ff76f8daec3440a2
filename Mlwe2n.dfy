/** `MLWE_2n.py`: module LWE over X^n + 1 with rank `m`. The noise has the
    shape of the ring scheme, but each inner product runs over `m n`
    coefficients and `e1`, `e2` may follow their own width `ke_ct`. The
    builder writes the `ke_ct` default, then the `rqk` default, onto the
    parameter namespace. */
module Mlwe2n {
  import opened Outcomes
  import opened Laws
  import opened BaseLaws
  import opened Engine
  import opened Iteration
  import opened IterationPower
  import opened Params
  import opened Reports
  import opened Chains
  import opened TwoN
  import Rlwe2n

  /** Both defaults, in the order the source applies them. */
  ghost function Defaults(f: Fields): Result<Fields>
  {
    var g :- KeCtDefault(f);
    RqkDefault(g)
  }

  /** The rest of `mlwe_final_error_distribution(ps)` once both defaults
      are set. `ps.m * ps.n` reads both fields before multiplying, and the
      product is passed to `bin`, so both must be ints. */
  ghost function AfterDefaults(g: Fields): Result<Law>
  {
    var ks :- IntField(g, "ks");
    var keCt :- IntField(g, "ke_ct");
    var ke :- IntField(g, "ke");
    var qv :- Field(g, "q");
    var rqkv :- Field(g, "rqk");
    var Rk :- MsOf(qv, rqkv, "rqk");
    var rqcv :- Field(g, "rqc");
    var Rc :- MsOf(qv, rqcv, "rqc");
    var mv :- Field(g, "m");
    var nv :- Field(g, "n");
    var m :- AsInt(mv, "m");
    var n :- AsInt(nv, "n");
    var rq2v :- Field(g, "rq2");
    var R2 :- MsOf(qv, rq2v, "rq2");
    Ok(TwoNLaw(m * n, ks, ke, keCt, Rk, Rc, R2))
  }

  ghost function FinalError(f: Fields): Result<Law>
  {
    var g :- Defaults(f);
    AfterDefaults(g)
  }

  /** The namespace after the builder: each default stays written once it
      has been computed, even when a later step raises. */
  ghost function Defaulted(f: Fields): Fields
  {
    if KeCtDefault(f).Err? then f
    else if RqkDefault(KeCtDefault(f).value).Err? then KeCtDefault(f).value
    else RqkDefault(KeCtDefault(f).value).value
  }

  method MlweFinalErrorDistribution(ps: Namespace) returns (r: Result<Law>)
    modifies ps
    ensures r == FinalError(old(ps.fields))
    ensures ps.fields == Defaulted(old(ps.fields))
  {
    var _ :- ps.DefaultKeCt();
    var _ :- ps.DefaultRqk();
    r := BuildAfterDefaults(ps.fields);
  }

  method BuildAfterDefaults(g: Fields) returns (r: Result<Law>)
    ensures r == AfterDefaults(g)
  {
    var ks :- IntField(g, "ks");
    var distS := BuildCenteredBinomialLaw(ks);
    var keCt :- IntField(g, "ke_ct");
    var distE1 := BuildCenteredBinomialLaw(keCt);
    var ke :- IntField(g, "ke");
    var distEp := BuildCenteredBinomialLaw(ke);
    var distR := BuildCenteredBinomialLaw(ks);
    var qv :- Field(g, "q");
    var rqkv :- Field(g, "rqk");
    var errPk :- BuildMsOf(qv, rqkv, "rqk");
    var rqcv :- Field(g, "rqc");
    var errU :- BuildMsOf(qv, rqcv, "rqc");
    var lawREff := LawConvolution(distR, errPk);
    var lawEEff := LawConvolution(distE1, errU);
    var termRe := LawProduct(distEp, lawREff);
    var termSe := LawProduct(distS, lawEEff);
    var mv :- Field(g, "m");
    var nv :- Field(g, "n");
    var m :- AsInt(mv, "m");
    var n :- AsInt(nv, "n");
    var accRe := IterLawConvolution(termRe, m * n);
    var accSe := IterLawConvolution(termSe, m * n);
    var mixCore := LawConvolution(accRe, accSe);
    var rq2v :- Field(g, "rq2");
    var errV :- BuildMsOf(qv, rq2v, "rq2");
    var tail := LawConvolution(errV, distE1);
    var finalLaw := LawConvolution(mixCore, tail);
    return Ok(finalLaw);
  }

  /** `compute_failure_probability(**params)`: `log(n * fail_p) / log(2)`,
      with `n`, not `m n`, as the factor. */
  ghost function Failure(f: Fields): Result<Reported>
  {
    var F :- FinalError(f);
    PerCoefficient(Defaulted(f), F)
  }

  method ComputeFailureProbability(params: Fields) returns (r: Result<Reported>)
    ensures r == Failure(params)
  {
    var ps := new Namespace(params);
    var F :- MlweFinalErrorDistribution(ps);
    r := ReportPerCoefficient(ps.fields, F);
  }

  // ---------------------------------------------------------------------

  /** The int fields every statement below starts from (`rqk` and `ke_ct`
      are stated separately, since they may be None). */
  ghost predicate Sizes(f: Fields, m: int, n: int, q: int, rqc: int, rq2: int, ks: int, ke: int)
  {
    && HasInt(f, "m", m) && HasInt(f, "n", n) && HasInt(f, "q", q)
    && HasInt(f, "rqc", rqc) && HasInt(f, "rq2", rq2)
    && HasInt(f, "ks", ks) && HasInt(f, "ke", ke)
  }

  /** With int parameters and q > 0 the law exists exactly when no
      rounding modulus is 0; it is then the 2n shape summed `m n` times. */
  lemma AfterDefaultsInts(g: Fields, m: int, n: int, q: int, rqk: int, rqc: int, rq2: int, ks: int, ke: int, keCt: int)
    requires Sizes(g, m, n, q, rqc, rq2, ks, ke) && HasInt(g, "rqk", rqk) && HasInt(g, "ke_ct", keCt) && q > 0
    ensures AfterDefaults(g).Err? <==> rqk == 0 || rqc == 0 || rq2 == 0
    ensures AfterDefaults(g).Err? ==> AfterDefaults(g).error == DivisionByZero
    ensures AfterDefaults(g).Ok? ==>
      AfterDefaults(g).value == TwoNLaw(m * n, ks, ke, keCt, MsLaw(q, rqk).value, MsLaw(q, rqc).value, MsLaw(q, rq2).value)
  {
    MsOfInts(q, rqk, "rqk");
    MsOfInts(q, rqc, "rqc");
    MsOfInts(q, rq2, "rq2");
    var Rk, Rc, R2 := MsOf(Int(q), Int(rqk), "rqk"), MsOf(Int(q), Int(rqc), "rqc"), MsOf(Int(q), Int(rq2), "rq2");
    if rqk == 0 {
      assert AfterDefaults(g) == Err(DivisionByZero);
    } else if rqc == 0 {
      assert AfterDefaults(g) == Err(DivisionByZero);
    } else if rq2 == 0 {
      assert AfterDefaults(g) == Err(DivisionByZero);
    } else {
      assert AfterDefaults(g) == Ok(TwoNLaw(m * n, ks, ke, keCt, Rk.value, Rc.value, R2.value));
    }
  }

  /** `ps.m * ps.n` reads `m`, then `n`, and needs two ints only after
      both reads: a missing `n` is reported even when `m` is not an int. */
  lemma CountErrors(g: Fields, q: int, rqk: int, rqc: int, ks: int, ke: int, keCt: int)
    requires HasInt(g, "q", q) && HasInt(g, "rqk", rqk) && HasInt(g, "rqc", rqc)
    requires HasInt(g, "ks", ks) && HasInt(g, "ke", ke) && HasInt(g, "ke_ct", keCt)
    requires q > 0 && rqk != 0 && rqc != 0
    ensures "m" !in g ==> AfterDefaults(g) == Err(MissingField("m"))
    ensures "m" in g && "n" !in g ==> AfterDefaults(g) == Err(MissingField("n"))
    ensures "m" in g && "n" in g && !g["m"].Int? ==> AfterDefaults(g) == Err(WrongType("m"))
    ensures "m" in g && "n" in g && g["m"].Int? && !g["n"].Int? ==> AfterDefaults(g) == Err(WrongType("n"))
  {
    MsOfInts(q, rqk, "rqk");
    MsOfInts(q, rqc, "rqc");
  }

  /** Given `rqk` and `ke_ct` are kept as they are. */
  lemma FinalErrorInts(f: Fields, m: int, n: int, q: int, rqk: int, rqc: int, rq2: int, ks: int, ke: int, keCt: int)
    requires Sizes(f, m, n, q, rqc, rq2, ks, ke) && HasInt(f, "rqk", rqk) && HasInt(f, "ke_ct", keCt) && q > 0
    ensures FinalError(f).Err? <==> rqk == 0 || rqc == 0 || rq2 == 0
    ensures FinalError(f).Err? ==> FinalError(f).error == DivisionByZero
    ensures FinalError(f).Ok? ==>
      FinalError(f).value == TwoNLaw(m * n, ks, ke, keCt, MsLaw(q, rqk).value, MsLaw(q, rqc).value, MsLaw(q, rq2).value)
  {
    assert KeCtDefault(f) == Ok(f);
    assert RqkDefault(f) == Ok(f);
    AfterDefaultsInts(f, m, n, q, rqk, rqc, rq2, ks, ke, keCt);
  }

  /** After both defaults the ints are still there, `ke_ct` is `ke` and
      `rqk` is the least power of two at least `q`. */
  lemma DefaultsFields(f: Fields, m: int, n: int, q: int, rqc: int, rq2: int, ks: int, ke: int)
    requires Sizes(f, m, n, q, rqc, rq2, ks, ke) && q > 0
    requires "rqk" in f && f["rqk"].NoneValue? && "ke_ct" in f && f["ke_ct"].NoneValue?
    ensures Defaults(f).Ok?
    ensures var g := Defaults(f).value;
      && Sizes(g, m, n, q, rqc, rq2, ks, ke) && HasInt(g, "ke_ct", ke)
      && HasInt(g, "rqk", LeastPow2AtLeast(q).value) && q <= LeastPow2AtLeast(q).value
  {
    KeCtDefaultSpec(f);
    var g1 := KeCtDefault(f).value;
    assert Sizes(g1, m, n, q, rqc, rq2, ks, ke) && HasInt(g1, "ke_ct", ke);
    assert "rqk" in g1 && g1["rqk"].NoneValue?;
    RqkDefaultSpec(g1);
  }

  /** With neither `rqk` nor `ke_ct` given, the public key is not
      compressed and `e1`, `e2` follow `Cbd(ke)`. */
  lemma DefaultsUncompressed(f: Fields, m: int, n: int, q: int, rqc: int, rq2: int, ks: int, ke: int)
    requires Sizes(f, m, n, q, rqc, rq2, ks, ke) && q > 0
    requires "rqk" in f && f["rqk"].NoneValue? && "ke_ct" in f && f["ke_ct"].NoneValue?
    ensures FinalError(f).Err? <==> rqc == 0 || rq2 == 0
    ensures FinalError(f).Ok? ==>
      FinalError(f).value == TwoNLaw(m * n, ks, ke, ke, Unit, MsLaw(q, rqc).value, MsLaw(q, rq2).value)
  {
    DefaultsFields(f, m, n, q, rqc, rq2, ks, ke);
    var g := Defaults(f).value;
    var p := LeastPow2AtLeast(q).value;
    AfterDefaultsInts(g, m, n, q, p, rqc, rq2, ks, ke, ke);
    MsLawExact(q, p);
  }

  /** Rank 1 with `ke_ct = ke` is the ring scheme: the same law from the
      same fields. */
  lemma RankOneIsRing(f: Fields, n: int, q: int, rqk: int, rqc: int, rq2: int, ks: int, ke: int)
    requires Sizes(f, 1, n, q, rqc, rq2, ks, ke) && HasInt(f, "rqk", rqk) && HasInt(f, "ke_ct", ke) && q > 0
    ensures FinalError(f) == Rlwe2n.FinalError(f)
  {
    FinalErrorInts(f, 1, n, q, rqk, rqc, rq2, ks, ke, ke);
    Rlwe2n.FinalErrorInts(f, n, q, rqk, rqc, rq2, ks, ke);
  }

  /** Every value of the final law lies within
      `m n ke (ks + q/2) + m n ks (ke_ct + q/2) + q/2 + ke_ct`. */
  lemma FinalErrorBounded(f: Fields, m: int, n: int, q: int, rqk: int, rqc: int, rq2: int, ks: nat, ke: nat, keCt: nat)
    requires Sizes(f, m, n, q, rqc, rq2, ks, ke) && HasInt(f, "rqk", rqk) && HasInt(f, "ke_ct", keCt)
    requires q > 0 && rqk != 0 && rqc != 0 && rq2 != 0
    ensures FinalError(f).Ok?
    ensures Bounded(FinalError(f).value, Bound(m * n, ks, ke, keCt, q / 2))
  {
    FinalErrorInts(f, m, n, q, rqk, rqc, rq2, ks, ke, keCt);
    MsOfInts(q, rqk, "rqk");
    MsOfInts(q, rqc, "rqc");
    MsOfInts(q, rq2, "rq2");
    TwoNBounded(m * n, ks, ke, keCt, MsLaw(q, rqk).value, MsLaw(q, rqc).value, MsLaw(q, rq2).value, q / 2);
  }

  lemma FinalErrorMass(f: Fields, m: int, n: int, q: int, rqk: int, rqc: int, rq2: int, ks: nat, ke: nat, keCt: nat)
    requires Sizes(f, m, n, q, rqc, rq2, ks, ke) && HasInt(f, "rqk", rqk) && HasInt(f, "ke_ct", keCt)
    requires q > 0 && rqk != 0 && rqc != 0 && rq2 != 0
    ensures FinalError(f).Ok?
    ensures NonNeg(FinalError(f).value) && Mass(FinalError(f).value) <= 1.0
  {
    FinalErrorInts(f, m, n, q, rqk, rqc, rq2, ks, ke, keCt);
    MsOfInts(q, rqk, "rqk");
    MsOfInts(q, rqc, "rqc");
    MsOfInts(q, rq2, "rq2");
    TwoNMass(m * n, ks, ke, keCt, MsLaw(q, rqk).value, MsLaw(q, rqc).value, MsLaw(q, rq2).value);
  }

  /** A threshold at or beyond that bound leaves a tail of 0, and
      `log(n * 0)` raises. */
  lemma FailureBeyond(f: Fields, m: int, n: int, q: int, rqk: int, rqc: int, rq2: int, ks: nat, ke: nat, keCt: nat, t: real)
    requires Sizes(f, m, n, q, rqc, rq2, ks, ke) && HasInt(f, "rqk", rqk) && HasInt(f, "ke_ct", keCt)
    requires HasNumber(f, "threshold", t) && q > 0 && rqk != 0 && rqc != 0 && rq2 != 0
    requires Bound(m * n, ks, ke, keCt, q / 2) as real <= t
    ensures Failure(f) == Err(MathDomain)
  {
    FinalErrorBounded(f, m, n, q, rqk, rqc, rq2, ks, ke, keCt);
    assert KeCtDefault(f) == Ok(f);
    assert RqkDefault(f) == Ok(f);
    PerCoefficientBeyond(f, FinalError(f).value, Bound(m * n, ks, ke, keCt, q / 2), n, t);
  }
}
