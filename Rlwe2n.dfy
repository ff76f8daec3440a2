/** `RLWE_2n.py`: the final decryption error `r e - s (e1 + e'') + e2 + e'`
    of ring LWE over X^n + 1 with a bit-per-coefficient message, where the
    public key, `u` and `v` are compressed to moduli `rqk`, `rqc` and `rq2`.
    The builder writes the `rqk` default onto the parameter namespace. */
module Rlwe2n {
  import opened Outcomes
  import opened Laws
  import opened BaseLaws
  import opened Engine
  import opened Iteration
  import opened IterationPower
  import opened Params
  import opened Reports
  import opened Chains
  import opened TwoN
  import ParameterSet

  /** The final law for rounding laws `Rk`, `Rc`, `R2`: the error `e` of
      the public key and `e1`, `e2` all follow `Cbd(ke)`. */
  ghost function Rlwe2nLaw(n: int, ks: int, ke: int, Rk: Law, Rc: Law, R2: Law): Law
  {
    TwoNLaw(n, ks, ke, ke, Rk, Rc, R2)
  }

  /** The rest of `rlwe_final_error_distribution(ps)` once `rqk` is set,
      reading the fields in the order the source does. */
  ghost function AfterDefault(g: Fields): Result<Law>
  {
    var ks :- IntField(g, "ks");
    var ke :- IntField(g, "ke");
    var qv :- Field(g, "q");
    var rqkv :- Field(g, "rqk");
    var Rk :- MsOf(qv, rqkv, "rqk");
    var rqcv :- Field(g, "rqc");
    var Rc :- MsOf(qv, rqcv, "rqc");
    var n :- IntField(g, "n");
    var rq2v :- Field(g, "rq2");
    var R2 :- MsOf(qv, rq2v, "rq2");
    Ok(Rlwe2nLaw(n, ks, ke, Rk, Rc, R2))
  }

  /** `rlwe_final_error_distribution(ps)` on the fields `f` it is given. */
  ghost function FinalError(f: Fields): Result<Law>
  {
    var g :- RqkDefault(f);
    AfterDefault(g)
  }

  /** The namespace after the builder: the `rqk` default is written as soon
      as it can be computed, even if building the law fails later. */
  ghost function Defaulted(f: Fields): Fields
  {
    if RqkDefault(f).Ok? then RqkDefault(f).value else f
  }

  method RlweFinalErrorDistribution(ps: Namespace) returns (r: Result<Law>)
    modifies ps
    ensures r == FinalError(old(ps.fields))
    ensures ps.fields == Defaulted(old(ps.fields))
  {
    var _ :- ps.DefaultRqk();
    r := BuildAfterDefault(ps.fields);
  }

  method BuildAfterDefault(g: Fields) returns (r: Result<Law>)
    ensures r == AfterDefault(g)
  {
    var ks :- IntField(g, "ks");
    var chis := BuildCenteredBinomialLaw(ks);
    var ke :- IntField(g, "ke");
    var chie := BuildCenteredBinomialLaw(ke);
    var chiePk := BuildCenteredBinomialLaw(ke);
    var chir := BuildCenteredBinomialLaw(ks);
    var qv :- Field(g, "q");
    var rqkv :- Field(g, "rqk");
    var Rk :- BuildMsOf(qv, rqkv, "rqk");
    var rqcv :- Field(g, "rqc");
    var Rc :- BuildMsOf(qv, rqcv, "rqc");
    var chiRs := LawConvolution(chir, Rk);
    var chiRe := LawConvolution(chie, Rc);
    var B1 := LawProduct(chiePk, chiRs);
    var B2 := LawProduct(chis, chiRe);
    var n :- IntField(g, "n");
    var C1 := IterLawConvolution(B1, n);
    var C2 := IterLawConvolution(B2, n);
    var C := LawConvolution(C1, C2);
    var rq2v :- Field(g, "rq2");
    var R2 :- BuildMsOf(qv, rq2v, "rq2");
    var F := LawConvolution(R2, chie);
    var D := LawConvolution(C, F);
    return Ok(D);
  }

  /** `compute_failure_probability(**params)`: `log(n * proba) / log(2)`,
      the tail counted once per coefficient of the message. */
  ghost function Failure(f: Fields): Result<Reported>
  {
    var F :- FinalError(f);
    PerCoefficient(Defaulted(f), F)
  }

  method ComputeFailureProbability(params: Fields) returns (r: Result<Reported>)
    ensures r == Failure(params)
  {
    var ps := new Namespace(params);
    var F :- RlweFinalErrorDistribution(ps);
    r := ReportPerCoefficient(ps.fields, F);
  }

  // ---------------------------------------------------------------------

  /** With int parameters and q > 0 the law exists exactly when no
      rounding modulus is 0 (a 0 raises ZeroDivisionError); it is then the
      closed form over the three rounding laws. */
  lemma AfterDefaultInts(g: Fields, n: int, q: int, rqk: int, rqc: int, rq2: int, ks: int, ke: int)
    requires HasInt(g, "n", n) && HasInt(g, "q", q) && HasInt(g, "rqk", rqk)
    requires HasInt(g, "rqc", rqc) && HasInt(g, "rq2", rq2)
    requires HasInt(g, "ks", ks) && HasInt(g, "ke", ke) && q > 0
    ensures AfterDefault(g).Err? <==> rqk == 0 || rqc == 0 || rq2 == 0
    ensures AfterDefault(g).Err? ==> AfterDefault(g).error == DivisionByZero
    ensures AfterDefault(g).Ok? ==>
      AfterDefault(g).value == Rlwe2nLaw(n, ks, ke, MsLaw(q, rqk).value, MsLaw(q, rqc).value, MsLaw(q, rq2).value)
  {
    MsOfInts(q, rqk, "rqk");
    MsOfInts(q, rqc, "rqc");
    MsOfInts(q, rq2, "rq2");
    var Rk, Rc, R2 := MsOf(Int(q), Int(rqk), "rqk"), MsOf(Int(q), Int(rqc), "rqc"), MsOf(Int(q), Int(rq2), "rq2");
    if rqk == 0 {
      assert AfterDefault(g) == Err(DivisionByZero);
    } else if rqc == 0 {
      assert AfterDefault(g) == Err(DivisionByZero);
    } else if rq2 == 0 {
      assert AfterDefault(g) == Err(DivisionByZero);
    } else {
      assert AfterDefault(g) == Ok(Rlwe2nLaw(n, ks, ke, Rk.value, Rc.value, R2.value));
    }
  }

  /** A given `rqk` is kept, so the closed form above is the final law. */
  lemma FinalErrorInts(f: Fields, n: int, q: int, rqk: int, rqc: int, rq2: int, ks: int, ke: int)
    requires HasInt(f, "n", n) && HasInt(f, "q", q) && HasInt(f, "rqk", rqk)
    requires HasInt(f, "rqc", rqc) && HasInt(f, "rq2", rq2)
    requires HasInt(f, "ks", ks) && HasInt(f, "ke", ke) && q > 0
    ensures FinalError(f).Err? <==> rqk == 0 || rqc == 0 || rq2 == 0
    ensures FinalError(f).Err? ==> FinalError(f).error == DivisionByZero
    ensures FinalError(f).Ok? ==>
      FinalError(f).value == Rlwe2nLaw(n, ks, ke, MsLaw(q, rqk).value, MsLaw(q, rqc).value, MsLaw(q, rq2).value)
  {
    assert RqkDefault(f) == Ok(f);
    AfterDefaultInts(f, n, q, rqk, rqc, rq2, ks, ke);
  }

  /** The fields after the default carry the ints they had before, and
      `rqk` becomes the least power of two at least `q`. */
  lemma DefaultFields(f: Fields, n: int, q: int, rqc: int, rq2: int, ks: int, ke: int)
    requires "rqk" in f && f["rqk"].NoneValue?
    requires HasInt(f, "n", n) && HasInt(f, "q", q)
    requires HasInt(f, "rqc", rqc) && HasInt(f, "rq2", rq2)
    requires HasInt(f, "ks", ks) && HasInt(f, "ke", ke) && q > 0
    ensures RqkDefault(f).Ok?
    ensures var g := RqkDefault(f).value;
      && HasInt(g, "n", n) && HasInt(g, "q", q) && HasInt(g, "rqc", rqc) && HasInt(g, "rq2", rq2)
      && HasInt(g, "ks", ks) && HasInt(g, "ke", ke)
      && HasInt(g, "rqk", LeastPow2AtLeast(q).value) && q <= LeastPow2AtLeast(q).value
  {
    RqkDefaultSpec(f);
  }

  /** Without a given `rqk` the public key is not compressed: its switch
      to `2^ceil(log2 q) >= q` adds no error, so the key term is just
      `e r`. */
  lemma DefaultKeyUncompressed(f: Fields, n: int, q: int, rqc: int, rq2: int, ks: int, ke: int)
    requires "rqk" in f && f["rqk"].NoneValue?
    requires HasInt(f, "n", n) && HasInt(f, "q", q)
    requires HasInt(f, "rqc", rqc) && HasInt(f, "rq2", rq2)
    requires HasInt(f, "ks", ks) && HasInt(f, "ke", ke) && q > 0
    ensures FinalError(f).Err? <==> rqc == 0 || rq2 == 0
    ensures FinalError(f).Ok? ==>
      FinalError(f).value == Rlwe2nLaw(n, ks, ke, Unit, MsLaw(q, rqc).value, MsLaw(q, rq2).value)
    ensures KeyTerm(ke, ks, Unit) == Prod(Cbd(ke), Cbd(ks))
  {
    DefaultFields(f, n, q, rqc, rq2, ks, ke);
    var g := RqkDefault(f).value;
    var p := LeastPow2AtLeast(q).value;
    AfterDefaultInts(g, n, q, p, rqc, rq2, ks, ke);
    MsLawExact(q, p);
    KeyTermUncompressed(ke, ks);
  }

  /** Every value of the final law lies within
      `n ke (ks + q/2) + n ks (ke + q/2) + q/2 + ke`. */
  lemma FinalErrorBounded(f: Fields, n: int, q: int, rqk: int, rqc: int, rq2: int, ks: nat, ke: nat)
    requires HasInt(f, "n", n) && HasInt(f, "q", q) && HasInt(f, "rqk", rqk)
    requires HasInt(f, "rqc", rqc) && HasInt(f, "rq2", rq2)
    requires HasInt(f, "ks", ks) && HasInt(f, "ke", ke) && q > 0
    requires rqk != 0 && rqc != 0 && rq2 != 0
    ensures FinalError(f).Ok?
    ensures Bounded(FinalError(f).value, Bound(n, ks, ke, ke, q / 2))
  {
    FinalErrorInts(f, n, q, rqk, rqc, rq2, ks, ke);
    MsOfInts(q, rqk, "rqk");
    MsOfInts(q, rqc, "rqc");
    MsOfInts(q, rq2, "rq2");
    TwoNBounded(n, ks, ke, ke, MsLaw(q, rqk).value, MsLaw(q, rqc).value, MsLaw(q, rq2).value, q / 2);
  }

  /** The final law is a sub-probability law, a probability law when the
      iteration prunes nothing. */
  lemma FinalErrorMass(f: Fields, n: int, q: int, rqk: int, rqc: int, rq2: int, ks: nat, ke: nat)
    requires HasInt(f, "n", n) && HasInt(f, "q", q) && HasInt(f, "rqk", rqk)
    requires HasInt(f, "rqc", rqc) && HasInt(f, "rq2", rq2)
    requires HasInt(f, "ks", ks) && HasInt(f, "ke", ke) && q > 0
    requires rqk != 0 && rqc != 0 && rq2 != 0
    ensures FinalError(f).Ok?
    ensures NonNeg(FinalError(f).value) && Mass(FinalError(f).value) <= 1.0
  {
    FinalErrorInts(f, n, q, rqk, rqc, rq2, ks, ke);
    MsOfInts(q, rqk, "rqk");
    MsOfInts(q, rqc, "rqc");
    MsOfInts(q, rq2, "rq2");
    TwoNMass(n, ks, ke, ke, MsLaw(q, rqk).value, MsLaw(q, rqc).value, MsLaw(q, rq2).value);
  }

  /** A threshold at or beyond that bound leaves a tail of 0, and
      `log(n * 0)` raises. */
  lemma FailureBeyond(f: Fields, n: int, q: int, rqk: int, rqc: int, rq2: int, ks: nat, ke: nat, t: real)
    requires HasInt(f, "n", n) && HasInt(f, "q", q) && HasInt(f, "rqk", rqk)
    requires HasInt(f, "rqc", rqc) && HasInt(f, "rq2", rq2)
    requires HasInt(f, "ks", ks) && HasInt(f, "ke", ke) && HasNumber(f, "threshold", t)
    requires q > 0 && rqk != 0 && rqc != 0 && rq2 != 0
    requires Bound(n, ks, ke, ke, q / 2) as real <= t
    ensures Failure(f) == Err(MathDomain)
  {
    FinalErrorBounded(f, n, q, rqk, rqc, rq2, ks, ke);
    assert RqkDefault(f) == Ok(f);
    PerCoefficientBeyond(f, FinalError(f).value, Bound(n, ks, ke, ke, q / 2), n, t);
  }

  // ---------------------------------------------------------------------
  // The fields read

  /** The fields the builder and the report read: the correctness
      parameter list of RLWE_2n. */
  lemma SchemaNames()
    ensures ParameterSet.GetAlgorithmParams("RLWE_2n", ParameterSet.Correctness)
              == ["n", "ks", "ke", "q", "rqc", "rq2", "rqk", "threshold"]
  {
  }

  /** The `rqk` default commutes with writing any other field than `rqk`
      and `q`. */
  lemma DefaultIgnores(f: Fields, name: string, v: Value)
    requires name != "rqk" && name != "q"
    ensures RqkDefault(f).Err? ==> RqkDefault(f[name := v]) == RqkDefault(f)
    ensures RqkDefault(f).Ok? ==> RqkDefault(f[name := v]) == Ok(RqkDefault(f).value[name := v])
  {
    var g := f[name := v];
    assert Field(g, "rqk") == Field(f, "rqk") && Field(g, "q") == Field(f, "q");
    if RqkDefault(f).Ok? && "rqk" in f && f["rqk"].NoneValue? {
      var p := LeastPow2AtLeast(f["q"].i).value;
      assert g["rqk" := Int(p)] == f["rqk" := Int(p)][name := v];
    }
  }

  lemma AfterDefaultIgnores(g: Fields, name: string, v: Value)
    requires name !in ["n", "ks", "ke", "q", "rqc", "rq2", "rqk", "threshold"]
    ensures AfterDefault(g[name := v]) == AfterDefault(g)
  {
    var h := g[name := v];
    assert IntField(h, "ks") == IntField(g, "ks") && IntField(h, "ke") == IntField(g, "ke");
    assert IntField(h, "n") == IntField(g, "n") && Field(h, "q") == Field(g, "q");
    assert Field(h, "rqk") == Field(g, "rqk") && Field(h, "rqc") == Field(g, "rqc");
    assert Field(h, "rq2") == Field(g, "rq2");
  }

  lemma PerCoefficientIgnores(g: Fields, F: Law, name: string, v: Value)
    requires name != "n" && name != "threshold"
    ensures PerCoefficient(g[name := v], F) == PerCoefficient(g, F)
  {
    var h := g[name := v];
    assert Field(h, "threshold") == Field(g, "threshold") && IntField(h, "n") == IntField(g, "n");
  }

  /** The result reads no field outside the scheme's correctness parameter
      list: writing any other field leaves it unchanged. */
  lemma IgnoresOtherFields(f: Fields, name: string, v: Value)
    requires name !in ParameterSet.GetAlgorithmParams("RLWE_2n", ParameterSet.Correctness)
    ensures Failure(f[name := v]) == Failure(f)
  {
    SchemaNames();
    DefaultIgnores(f, name, v);
    var g := f[name := v];
    if RqkDefault(f).Ok? {
      var h := RqkDefault(f).value;
      AfterDefaultIgnores(h, name, v);
      if AfterDefault(h).Ok? {
        assert Defaulted(g) == h[name := v];
        PerCoefficientIgnores(h, AfterDefault(h).value, name, v);
      }
    }
  }
}
