/** The MLWE-3n scheme of src/failure/MLWE_3n.py. The noise is
    r e - s (e1 + e'') + e2 + e': per block i in `range(n // 2)` four
    tables, the `r e` tables of the Gaussian law and the `s (e1 + e'')`
    tables of the Gaussian law against the Gaussian plus the rounding error
    for `rqc`, are iterated i k and (n // 2 - i) k times; the linear part
    `e2 + e'` is added last. The last block iterates only the second tables,
    n // 2 * k times each, and counts n // 2 times.

    The discrete Gaussian law `build_discrete_gaussian_law(sigma)` is a
    parameter `Gauss`, a function of the number `sigma` held by `psi_1`. */
module Mlwe3n {
  import opened Outcomes
  import opened Laws
  import opened Engine
  import opened BaseLaws
  import opened Iteration
  import opened IterationMass
  import opened Tails
  import opened Params
  import opened Reports
  import opened Chains
  import opened Tables
  import opened TableLaws
  import opened Blocks

  /** The five laws of a block: `law1` and `law2` (the `r e` tables), `law3`
      and `law4` (the `s (e1 + e'')` tables) and `D_lin` (`e2 + e'`). */
  datatype Parts = Parts(re1: Law, re2: Law, se1: Law, se2: Law, lin: Law)

  /** The parts built from the Gaussian law `G`, the rounding error `Rc`
      for `rqc` and the rounding error `Ep` for `rq2`. */
  ghost function PartsFrom(G: Law, Rc: Law, Ep: Law): Parts
  {
    var re := Conv(G, Rc);
    Parts(Table(G, G, SquareKey), Table(G, G, CrossKey), Table(G, re, SquareKey), Table(G, re, CrossKey), Conv(G, Ep))
  }

  /** The four tables and `D_lin`, or the exception raised while building
      the rounding errors. */
  ghost function PartsOf(G: Law, qv: Value, rqcv: Value, rq2v: Value): Result<Parts>
  {
    var rc :- MsOf(qv, rqcv, "rqc");
    var ep :- MsOf(qv, rq2v, "rq2");
    Ok(PartsFrom(G, rc, ep))
  }

  /** The copies of the first tables in block i: `i * k`. */
  function Lead(i: int, k: int): int
  {
    i * k
  }

  /** The copies of the second tables in block i: `(n // 2 - i) * k`. */
  function Trail(n: int, i: int, k: int): int
  {
    (n / 2 - i) * k
  }

  /** The copies of the second tables in the last block: `n // 2 * k`. */
  function Full(n: int, k: int): int
  {
    n / 2 * k
  }

  /** Block i with `u = i * k` copies of the first tables and
      `v = (n // 2 - i) * k` copies of the second ones:
      `law_convolution(law_convolution(D_re, D_se), D_lin)`. */
  ghost function Mix(P: Parts, u: int, v: int): Law
  {
    Conv(Conv(Inner(P.re1, u, P.re2, v), Inner(P.se1, u, P.se2, v)), P.lin)
  }

  /** `D` of `_compute_single_i` for block i. */
  ghost function Block(P: Parts, n: int, k: int, i: int): Law
  {
    Mix(P, Lead(i, k), Trail(n, i, k))
  }

  /** The laws of the blocks i in `range(0, n // 2)`. */
  ghost function BlockLaws(P: Parts, n: int, k: int): (Ds: seq<Law>)
    ensures |Ds| == Half(n)
  {
    Tabulate(i => Mix(P, Lead(i, k), Trail(n, i, k)), Half(n))
  }

  /** The law at index i of the blocks is block i. */
  lemma BlockAt(P: Parts, n: int, k: int, i: int)
    requires 0 <= i < Half(n)
    ensures BlockLaws(P, n, k)[i] == Block(P, n, k, i)
  {
    TabulateAt(i => Mix(P, Lead(i, k), Trail(n, i, k)), Half(n), i);
  }

  /** `D_last`. */
  ghost function LastLaw(P: Parts, n: int, k: int): Law
  {
    Chain(P.re2, Full(n, k), P.se2, Full(n, k), P.lin)
  }

  /** The blocks, then the last block counted n // 2 times, then the
      verdict, for `math.log1p` given as `L` and the field value `tv` of
      `threshold`. */
  ghost function Outcome(L: real -> real, P: Parts, n: int, k: int, tv: Value): Result<Reported>
  {
    Finish(L, BlockLaws(P, n, k), LastLaw(P, n, k), tv, n / 2)
  }

  /** What `compute_failure_probability(**params)` returns or raises. */
  ghost function Failure(L: real -> real, Gauss: real -> Law, f: Fields): Result<Reported>
  {
    var nv :- Field(f, "n");
    var qv :- Field(f, "q");
    var kv :- Field(f, "k");
    var tv :- Field(f, "threshold");
    var sigmav :- Field(f, "psi_1");
    var rqcv :- Field(f, "rqc");
    var rq2v :- Field(f, "rq2");
    var sigma :- Sigma(sigmav);
    var P :- PartsOf(Gauss(sigma), qv, rqcv, rq2v);
    var n :- AsInt(nv, "n");
    var k :- AsInt(kv, "k");
    Outcome(L, P, n, k, tv)
  }

  /** The `sigma` that `build_discrete_gaussian_law` accepts: `3 * None`
      raises a TypeError, and for sigma = 0 the weight of x = 0 divides
      0 by 0. Any other number builds a law. */
  function Sigma(v: Value): (r: Result<real>)
    ensures r.Ok? <==> !v.NoneValue? && AsNumber(v, "psi_1").value != 0.0
    ensures r.Ok? ==> AsNumber(v, "psi_1") == Ok(r.value)
    ensures v.NoneValue? ==> r == Err(WrongType("psi_1"))
    ensures !v.NoneValue? && AsNumber(v, "psi_1").value == 0.0 ==> r == Err(DivisionByZero)
  {
    var sigma :- AsNumber(v, "psi_1");
    if sigma == 0.0 then Err(DivisionByZero) else Ok(sigma)
  }

  // ---------------------------------------------------------------------
  // The builders and the computation

  /** `build_se_table1` and `build_se_table2`, by their key. */
  method BuildSeTable(G: Law, qv: Value, rqv: Value, key: Quad -> int) returns (r: Result<Law>)
    ensures r == (var rc :- MsOf(qv, rqv, "rqc"); Ok(Table(G, Conv(G, rc), key)))
  {
    var rc :- BuildMsOf(qv, rqv, "rqc");
    var re := LawConvolution(G, rc);
    var law := FillTable(G, re, key);
    return Ok(law);
  }

  method BuildParts(G: Law, qv: Value, rqcv: Value, rq2v: Value) returns (r: Result<Parts>)
    ensures r == PartsOf(G, qv, rqcv, rq2v)
  {
    var law1 := FillTable(G, G, SquareKey);
    var law2 := FillTable(G, G, CrossKey);
    var law3 :- BuildSeTable(G, qv, rqcv, SquareKey);
    // The second table reads the same rounding law, which the first one
    // has already built without an exception.
    var se2 := BuildSeTable(G, qv, rqcv, CrossKey);
    var law4 := se2.value;
    var ep :- BuildMsOf(qv, rq2v, "rq2");
    var lin := LawConvolution(G, ep);
    return Ok(Parts(law1, law2, law3, law4, lin));
  }

  /** `_compute_single_i`: block i, its tail and `math.log1p(-2 * tail)`. */
  method ComputeSingleI(L: real -> real, i: int, n: int, k: int, threshold: Value,
                        law1: Law, law2: Law, law3: Law, law4: Law, dLin: Law) returns (r: Result<real>)
    ensures r == Term(L, Block(Parts(law1, law2, law3, law4, dLin), n, k, i), threshold)
  {
    var dRe1 := IterLawConvolution(law1, Lead(i, k));
    var dRe2 := IterLawConvolution(law2, Trail(n, i, k));
    var dRe := LawConvolution(dRe1, dRe2);
    var dSe1 := IterLawConvolution(law3, Lead(i, k));
    var dSe2 := IterLawConvolution(law4, Trail(n, i, k));
    var dSe := LawConvolution(dSe1, dSe2);
    var d := LawConvolution(dRe, dSe);
    d := LawConvolution(d, dLin);
    var tail :- TailAboveAtThreshold(d, threshold);
    r := Log1pTerm(L, tail);
  }

  /** The task the pool hands block i to. */
  method BlockTerm(L: real -> real, P: Parts, n: int, k: int, i: int, tv: Value, ghost Ds: seq<Law>) returns (term: Result<real>)
    requires Ds == BlockLaws(P, n, k) && 0 <= i < |Ds|
    ensures term == Term(L, Ds[i], tv)
  {
    term := ComputeSingleI(L, i, n, k, tv, P.re1, P.re2, P.se1, P.se2, P.lin);
    PartsEta(P);
    BlockAt(P, n, k, i);
  }

  lemma PartsEta(P: Parts)
    ensures Parts(P.re1, P.re2, P.se1, P.se2, P.lin) == P
  {
  }

  /** `D_last`: the second tables iterated n // 2 * k times each. */
  method BuildLast(P: Parts, n: int, k: int) returns (dLast: Law)
    ensures dLast == LastLaw(P, n, k)
  {
    var dReLast := IterLawConvolution(P.re2, Full(n, k));
    var dSeLast := IterLawConvolution(P.se2, Full(n, k));
    var dMulLast := LawConvolution(dReLast, dSeLast);
    dLast := LawConvolution(dMulLast, P.lin);
  }

  /** The pool's loop, block after block:
      `log_p_success += val` for each block's term. */
  method SumBlocks(L: real -> real, P: Parts, n: int, k: int, tv: Value, ghost Ds: seq<Law>) returns (r: Result<real>)
    requires Ds == BlockLaws(P, n, k)
    ensures r == SerialSum(L, Ds, tv)
  {
    var lps := 0.0;
    for i := 0 to Half(n)
      invariant SerialSum(L, Ds[..i], tv) == Ok(lps)
    {
      var next := AddBlock(L, P, n, k, tv, Ds, i, lps);
      if next.Err? {
        return next;
      }
      lps := next.value;
    }
    WholePrefix(Ds);
    return Ok(lps);
  }

  /** One pass of the pool's loop: block i's term added to `lps`, or the
      exception that ends the loop. */
  method AddBlock(L: real -> real, P: Parts, n: int, k: int, tv: Value, ghost Ds: seq<Law>, i: int, lps: real)
    returns (next: Result<real>)
    requires Ds == BlockLaws(P, n, k) && 0 <= i < |Ds| && SerialSum(L, Ds[..i], tv) == Ok(lps)
    ensures next.Err? ==> SerialSum(L, Ds, tv) == next
    ensures next.Ok? ==> SerialSum(L, Ds[..i + 1], tv) == next
  {
    var term := BlockTerm(L, P, n, k, i, tv, Ds);
    SerialAdvance(L, Ds, tv, i, lps, term);
    if term.Err? {
      return Err(term.error);
    }
    return Ok(lps + term.value);
  }

  /** The blocks, then the last block and the verdict. */
  method Evaluate(L: real -> real, P: Parts, n: int, k: int, tv: Value) returns (r: Result<Reported>)
    ensures r == Outcome(L, P, n, k, tv)
  {
    var lps :- SumBlocks(L, P, n, k, tv, BlockLaws(P, n, k));
    var dLast := BuildLast(P, n, k);
    r := Close(L, lps, dLast, tv, n / 2);
  }

  /** `compute_failure_probability`, with the pool's blocks taken one
      after the other. */
  method ComputeFailureProbability(L: real -> real, Gauss: real -> Law, params: Fields) returns (r: Result<Reported>)
    ensures r == Failure(L, Gauss, params)
  {
    var nv :- Field(params, "n");
    var qv :- Field(params, "q");
    var kv :- Field(params, "k");
    var tv :- Field(params, "threshold");
    var sigmav :- Field(params, "psi_1");
    var rqcv :- Field(params, "rqc");
    var rq2v :- Field(params, "rq2");
    var sigma :- Sigma(sigmav);
    var P :- BuildParts(Gauss(sigma), qv, rqcv, rq2v);
    var n :- AsInt(nv, "n");
    var k :- AsInt(kv, "k");
    r := Evaluate(L, P, n, k, tv);
  }

  // ---------------------------------------------------------------------
  // The parts

  /** Every part is a sub-probability law. */
  ghost predicate SubProbability(P: Parts)
  {
    && NonNeg(P.re1) && Mass(P.re1) <= 1.0 && NonNeg(P.re2) && Mass(P.re2) <= 1.0
    && NonNeg(P.se1) && Mass(P.se1) <= 1.0 && NonNeg(P.se2) && Mass(P.se2) <= 1.0
    && NonNeg(P.lin) && Mass(P.lin) <= 1.0
  }

  /** With int moduli the parts are those of the two rounding laws; a zero
      `rqc` or `rq2` raises a ZeroDivisionError. */
  lemma PartsOfInts(G: Law, q: int, rqc: int, rq2: int)
    requires q > 0
    ensures rqc == 0 ==> PartsOf(G, Int(q), Int(rqc), Int(rq2)) == Err(DivisionByZero)
    ensures rqc != 0 && rq2 == 0 ==> PartsOf(G, Int(q), Int(rqc), Int(rq2)) == Err(DivisionByZero)
    ensures rqc != 0 && rq2 != 0 ==>
      PartsOf(G, Int(q), Int(rqc), Int(rq2)) == Ok(PartsFrom(G, MsLaw(q, rqc).value, MsLaw(q, rq2).value))
  {
    MsOfInts(q, rqc, "rqc");
    MsOfInts(q, rq2, "rq2");
  }

  /** Without compression (q <= rqc and q <= rq2) there is no rounding
      error: the `s (e1 + e'')` tables are the `r e` tables and `D_lin` is
      the Gaussian law itself. */
  lemma PartsExact(G: Law, q: int, rqc: int, rq2: int)
    requires 0 < q <= rqc && q <= rq2
    ensures PartsOf(G, Int(q), Int(rqc), Int(rq2))
         == Ok(Parts(Table(G, G, SquareKey), Table(G, G, CrossKey), Table(G, G, SquareKey), Table(G, G, CrossKey), G))
  {
    MsOfExact(q, rqc, "rqc");
    MsOfExact(q, rq2, "rq2");
    ConvUnitRight(G);
  }

  /** A Gaussian probability law and probability rounding laws give
      probability parts. */
  lemma PartsProbability(G: Law, Rc: Law, Ep: Law)
    requires NonNeg(G) && Mass(G) == 1.0 && NonNeg(Rc) && Mass(Rc) == 1.0 && NonNeg(Ep) && Mass(Ep) == 1.0
    ensures SubProbability(PartsFrom(G, Rc, Ep))
    ensures var P := PartsFrom(G, Rc, Ep);
      Mass(P.re1) == 1.0 && Mass(P.re2) == 1.0 && Mass(P.se1) == 1.0 && Mass(P.se2) == 1.0 && Mass(P.lin) == 1.0
  {
    var re := Conv(G, Rc);
    ConvNonNeg(G, Rc);
    ConvMassOne(G, Rc);
    ConvNonNeg(G, Ep);
    ConvMassOne(G, Ep);
    TableNonNeg(G, G, SquareKey);
    TableNonNeg(G, G, CrossKey);
    TableNonNeg(G, re, SquareKey);
    TableNonNeg(G, re, CrossKey);
    TableUnitMass(G, G, SquareKey);
    TableUnitMass(G, G, CrossKey);
    TableUnitMass(G, re, SquareKey);
    TableUnitMass(G, re, CrossKey);
  }

  /** A symmetric Gaussian law gives symmetric `r e` tables and a symmetric
      second `s (e1 + e'')` table, whatever the rounding error; with a
      symmetric rounding error for `rq2`, `D_lin` is symmetric as well. */
  lemma PartsSymmetric(G: Law, Rc: Law, Ep: Law)
    requires Symmetric(G)
    ensures var P := PartsFrom(G, Rc, Ep);
      Symmetric(P.re1) && Symmetric(P.re2) && Symmetric(P.se2)
    ensures Symmetric(Ep) ==> Symmetric(PartsFrom(G, Rc, Ep).lin)
  {
    SquareTableSymmetric(G, G);
    CrossTableSymmetric(G, G);
    CrossTableSymmetric(G, Conv(G, Rc));
    if Symmetric(Ep) {
      ConvSymmetric(G, Ep);
    }
  }

  /** With the Gaussian law on [-g, g], the `r e` tables lie in
      [-2 g^2, 2 g^2] and [-3 g^2, 3 g^2]. */
  lemma ReTablesBounded(G: Law, Rc: Law, Ep: Law, g: int)
    requires Bounded(G, g)
    ensures Bounded(PartsFrom(G, Rc, Ep).re1, g * g + g * g)
    ensures Bounded(PartsFrom(G, Rc, Ep).re2, g * g + g * (g + g))
  {
    SquareTableBounded(G, G, g, g);
    CrossTableBounded(G, G, g, g);
  }

  /** With the Gaussian law on [-g, g] and the rounding error for `rqc` on
      [-(r - g), r - g], `e1 + e''` lies in [-r, r] and the `s (e1 + e'')`
      tables in [-(g^2 + r^2), g^2 + r^2] and [-3 g r, 3 g r]. */
  lemma SeTablesBounded(G: Law, Rc: Law, Ep: Law, g: int, r: int)
    requires Bounded(G, g) && Bounded(Rc, r - g)
    ensures Bounded(PartsFrom(G, Rc, Ep).se1, g * g + r * r)
    ensures Bounded(PartsFrom(G, Rc, Ep).se2, g * r + r * (g + g))
  {
    ConvBounded(G, Rc, g, r - g);
    SquareTableBounded(G, Conv(G, Rc), g, r);
    CrossTableBounded(G, Conv(G, Rc), g, r);
  }

  /** `D_lin` lies within the sum of the bounds of `e2` and `e'`. */
  lemma LinBounded(G: Law, Rc: Law, Ep: Law, g: int, e: int)
    requires Bounded(G, g) && Bounded(Ep, e)
    ensures Bounded(PartsFrom(G, Rc, Ep).lin, g + e)
  {
    ConvBounded(G, Ep, g, e);
  }

  // ---------------------------------------------------------------------
  // The blocks

  lemma InnerZero(A: Law, B: Law, v: int)
    ensures Inner(A, 0, B, v) == IterLaw(B, v)
  {
    IterZero(A);
    ConvUnitLeft(IterLaw(B, v));
  }

  lemma MixZero(P: Parts, v: int)
    ensures Mix(P, 0, v) == Chain(P.re2, v, P.se2, v, P.lin)
  {
    InnerZero(P.re1, P.re2, v);
    InnerZero(P.se1, P.se2, v);
  }

  /** Block 0 iterates the first tables 0 times: it is the last block. */
  lemma BlockZeroIsLast(P: Parts, n: int, k: int)
    ensures Block(P, n, k, 0) == LastLaw(P, n, k)
  {
    assert Lead(0, k) == 0 && Trail(n, 0, k) == Full(n, k);
    MixZero(P, Full(n, k));
  }

  /** i k and (n // 2 - i) k have the sign of k, so their sizes add up. */
  lemma CountsSplit(n: int, i: int, k: int)
    requires 0 <= i <= n / 2
    ensures Abs(Lead(i, k)) + Abs(Trail(n, i, k)) == Abs(Full(n, k))
  {
    var h := n / 2;
    assert (h - i) * k == h * k - i * k;
    if k >= 0 {
      assert i * k >= 0 && (h - i) * k >= 0;
    } else {
      assert i * k <= 0 && (h - i) * k <= 0;
    }
  }

  lemma Distribute(u: int, v: int, w: int, b: int, c: int)
    requires u + v == w
    ensures u * b + v * b + (u * c + v * c) == w * (b + c)
  {
  }

  /** The reach |n // 2 * k| (b + c) + d of a block whose first parts lie
      in [-b, b], whose second parts lie in [-c, c] and whose linear part
      lies in [-d, d]. */
  function Reach(n: int, k: int, b: int, c: int, d: int): int
  {
    Abs(Full(n, k)) * (b + c) + d
  }

  ghost predicate PartsWithin(P: Parts, b: int, c: int, d: int)
  {
    Bounded(P.re1, b) && Bounded(P.re2, b) && Bounded(P.se1, c) && Bounded(P.se2, c) && Bounded(P.lin, d)
  }

  lemma InnerBounded(A: Law, u: int, B: Law, v: int, m: int)
    requires Bounded(A, m) && Bounded(B, m)
    ensures Bounded(Inner(A, u, B, v), Abs(u) * m + Abs(v) * m)
  {
    IterPreserves(A, u, m);
    IterPreserves(B, v, m);
    ConvBounded(IterLaw(A, u), IterLaw(B, v), Abs(u) * m, Abs(v) * m);
  }

  lemma MixBounded(P: Parts, u: int, v: int, w: int, b: int, c: int, d: int)
    requires PartsWithin(P, b, c, d) && Abs(u) + Abs(v) == w
    ensures Bounded(Mix(P, u, v), w * (b + c) + d)
  {
    var U, V := Abs(u), Abs(v);
    InnerBounded(P.re1, u, P.re2, v, b);
    InnerBounded(P.se1, u, P.se2, v, c);
    MixWithin(P, u, v, U * b + V * b, U * c + V * c);
    Distribute(U, V, w, b, c);
  }

  lemma MixWithin(P: Parts, u: int, v: int, x: int, y: int)
    requires Bounded(Inner(P.re1, u, P.re2, v), x) && Bounded(Inner(P.se1, u, P.se2, v), y)
    ensures forall d :: Bounded(P.lin, d) ==> Bounded(Mix(P, u, v), x + y + d)
  {
    var re, se := Inner(P.re1, u, P.re2, v), Inner(P.se1, u, P.se2, v);
    ConvBounded(re, se, x, y);
    forall d | Bounded(P.lin, d)
      ensures Bounded(Mix(P, u, v), x + y + d)
    {
      ConvBounded(Conv(re, se), P.lin, x + y, d);
    }
  }

  lemma BlockBounded(P: Parts, n: int, k: int, i: int, b: int, c: int, d: int)
    requires PartsWithin(P, b, c, d) && 0 <= i <= n / 2
    ensures Bounded(Block(P, n, k, i), Reach(n, k, b, c, d))
  {
    CountsSplit(n, i, k);
    MixBounded(P, Lead(i, k), Trail(n, i, k), Abs(Full(n, k)), b, c, d);
  }

  lemma LastBounded(P: Parts, n: int, k: int, b: int, c: int, d: int)
    requires PartsWithin(P, b, c, d)
    ensures Bounded(LastLaw(P, n, k), Reach(n, k, b, c, d))
  {
    var w := Abs(Full(n, k));
    ChainBounded(P.re2, Full(n, k), P.se2, Full(n, k), P.lin, b, c, d);
    assert w * b + w * c == w * (b + c);
  }

  /** Every block and the last block lie within the reach. */
  lemma BlocksBounded(P: Parts, n: int, k: int, b: int, c: int, d: int)
    requires PartsWithin(P, b, c, d)
    ensures AllBounded(BlockLaws(P, n, k), Reach(n, k, b, c, d))
    ensures Bounded(LastLaw(P, n, k), Reach(n, k, b, c, d))
  {
    forall i | 0 <= i < Half(n)
      ensures Bounded(BlockLaws(P, n, k)[i], Reach(n, k, b, c, d))
    {
      BlockAt(P, n, k, i);
      BlockBounded(P, n, k, i, b, c, d);
    }
    LastBounded(P, n, k, b, c, d);
  }

  lemma InnerAtMostOne(A: Law, u: int, B: Law, v: int)
    requires NonNeg(A) && Mass(A) <= 1.0 && NonNeg(B) && Mass(B) <= 1.0
    ensures NonNeg(Inner(A, u, B, v)) && Mass(Inner(A, u, B, v)) <= 1.0
  {
    IterAtMostOne(A, u);
    IterAtMostOne(B, v);
    ConvAtMostOne(IterLaw(A, u), IterLaw(B, v));
  }

  /** Sub-probability parts give sub-probability blocks. */
  lemma MixSubProbability(P: Parts, u: int, v: int)
    requires SubProbability(P)
    ensures NonNeg(Mix(P, u, v)) && Mass(Mix(P, u, v)) <= 1.0
  {
    var re, se := Inner(P.re1, u, P.re2, v), Inner(P.se1, u, P.se2, v);
    InnerAtMostOne(P.re1, u, P.re2, v);
    InnerAtMostOne(P.se1, u, P.se2, v);
    ConvAtMostOne(re, se);
    ConvAtMostOne(Conv(re, se), P.lin);
  }

  lemma BlocksSubProbability(P: Parts, n: int, k: int)
    requires SubProbability(P)
    ensures AllSubProbability(BlockLaws(P, n, k))
    ensures NonNeg(LastLaw(P, n, k)) && Mass(LastLaw(P, n, k)) <= 1.0
  {
    forall i | 0 <= i < Half(n)
      ensures NonNeg(BlockLaws(P, n, k)[i]) && Mass(BlockLaws(P, n, k)[i]) <= 1.0
    {
      BlockAt(P, n, k, i);
      MixSubProbability(P, Lead(i, k), Trail(n, i, k));
    }
    ChainAtMostOne(P.re2, Full(n, k), P.se2, Full(n, k), P.lin);
  }

  /** For n >= 0 the last block is block 0 and counts n // 2 times. */
  lemma LastIsFirstOf(P: Parts, n: int, k: int)
    requires n >= 0
    ensures LastIsFirst(BlockLaws(P, n, k), LastLaw(P, n, k), n / 2)
  {
    if n >= 2 {
      BlockAt(P, n, k, 0);
      BlockZeroIsLast(P, n, k);
    }
  }

  // ---------------------------------------------------------------------
  // The outcome of the blocks

  /** With a numeric threshold t the outcome is the 3n conclusion over the
      tails of the blocks and of the last block at t. */
  lemma OutcomeNumber(L: real -> real, P: Parts, n: int, k: int, tv: Value)
    requires !tv.NoneValue?
    ensures var t := AsNumber(tv, "threshold").value;
      Outcome(L, P, n, k, tv)
      == Conclude(L, TailsOf(BlockLaws(P, n, k), t), TailAbove(LastLaw(P, n, k), t), n / 2)
  {
    FinishNumber(L, BlockLaws(P, n, k), LastLaw(P, n, k), tv, n / 2);
  }

  /** `pool.imap_unordered` hands the block terms over in any order: every
      order gives the same outcome. */
  lemma OutcomeAnyOrder(L: real -> real, P: Parts, n: int, k: int, tv: Value, s: seq<real>)
    requires !tv.NoneValue?
    requires multiset(s) == multiset(TailsOf(BlockLaws(P, n, k), AsNumber(tv, "threshold").value))
    ensures Outcome(L, P, n, k, tv)
         == Conclude(L, s, TailAbove(LastLaw(P, n, k), AsNumber(tv, "threshold").value), n / 2)
  {
    FinishAnyOrder(L, BlockLaws(P, n, k), LastLaw(P, n, k), tv, n / 2, s);
  }

  /** A None threshold raises a TypeError as soon as one block, or the last
      block, is not empty. */
  lemma OutcomeNone(L: real -> real, P: Parts, n: int, k: int, tv: Value)
    requires tv.NoneValue?
    ensures Outcome(L, P, n, k, tv).Err? <==>
      (exists i :: 0 <= i < Half(n) && |BlockLaws(P, n, k)[i]| > 0) || |LastLaw(P, n, k)| > 0
    ensures Outcome(L, P, n, k, tv).Err? ==> Outcome(L, P, n, k, tv).error == WrongType("threshold")
  {
    FinishNone(L, BlockLaws(P, n, k), LastLaw(P, n, k), tv, n / 2);
  }

  /** With sub-probability parts and every tail below 1/2 the outcome is
      defined; it is minus infinity exactly when every block tail is 0, and
      otherwise `log2` of a positive number. */
  lemma OutcomeMinusInfinity(L: real -> real, P: Parts, n: int, k: int, tv: Value)
    requires Log1pShape(L) && SubProbability(P) && !tv.NoneValue? && n >= 0
    requires var t := AsNumber(tv, "threshold").value;
      BelowHalf(TailsOf(BlockLaws(P, n, k), t)) && TailAbove(LastLaw(P, n, k), t) < 0.5
    ensures Signed(Outcome(L, P, n, k, tv), AllZero(TailsOf(BlockLaws(P, n, k), AsNumber(tv, "threshold").value)))
  {
    BlocksSubProbability(P, n, k);
    LastIsFirstOf(P, n, k);
    FinishMinusInfinity(L, BlockLaws(P, n, k), LastLaw(P, n, k), tv, n / 2);
  }

  /** A tail of 1/2 or more makes `math.log1p` raise. */
  lemma OutcomeFails(L: real -> real, P: Parts, n: int, k: int, tv: Value)
    requires !tv.NoneValue?
    requires var t := AsNumber(tv, "threshold").value;
      (exists i :: 0 <= i < Half(n) && TailsOf(BlockLaws(P, n, k), t)[i] >= 0.5)
      || TailAbove(LastLaw(P, n, k), t) >= 0.5
    ensures Outcome(L, P, n, k, tv) == Err(MathDomain)
  {
    FinishFails(L, BlockLaws(P, n, k), LastLaw(P, n, k), tv, n / 2);
  }

  /** A threshold at or beyond the reach of the blocks: minus infinity. */
  lemma OutcomeBeyond(L: real -> real, P: Parts, n: int, k: int, tv: Value, b: int, c: int, d: int, t: real)
    requires Log1pShape(L) && AsNumber(tv, "threshold") == Ok(t) && PartsWithin(P, b, c, d)
    requires Reach(n, k, b, c, d) as real <= t
    ensures Outcome(L, P, n, k, tv) == Ok(MinusInfinity)
  {
    BlocksBounded(P, n, k, b, c, d);
    FinishBeyond(L, BlockLaws(P, n, k), LastLaw(P, n, k), tv, n / 2, Reach(n, k, b, c, d));
  }

  // ---------------------------------------------------------------------
  // The result

  /** The exceptions raised before any block: a field missing, in the
      order the fields are read. */
  lemma FieldErrors(L: real -> real, Gauss: real -> Law, f: Fields)
    ensures "n" !in f ==> Failure(L, Gauss, f) == Err(MissingField("n"))
    ensures "n" in f && "q" !in f ==> Failure(L, Gauss, f) == Err(MissingField("q"))
    ensures "n" in f && "q" in f && "k" !in f ==> Failure(L, Gauss, f) == Err(MissingField("k"))
    ensures "n" in f && "q" in f && "k" in f && "threshold" !in f ==> Failure(L, Gauss, f) == Err(MissingField("threshold"))
    ensures "n" in f && "q" in f && "k" in f && "threshold" in f && "psi_1" !in f
      ==> Failure(L, Gauss, f) == Err(MissingField("psi_1"))
    ensures "n" in f && "q" in f && "k" in f && "threshold" in f && "psi_1" in f && "rqc" !in f
      ==> Failure(L, Gauss, f) == Err(MissingField("rqc"))
    ensures "n" in f && "q" in f && "k" in f && "threshold" in f && "psi_1" in f && "rqc" in f && "rq2" !in f
      ==> Failure(L, Gauss, f) == Err(MissingField("rq2"))
  {
  }

  /** With every field present, a None `psi_1` raises a TypeError and a
      zero one a ZeroDivisionError, before any law is built. */
  lemma SigmaErrors(L: real -> real, Gauss: real -> Law, f: Fields)
    requires forall x :: x in {"n", "q", "k", "threshold", "psi_1", "rqc", "rq2"} ==> x in f
    ensures f["psi_1"].NoneValue? ==> Failure(L, Gauss, f) == Err(WrongType("psi_1"))
    ensures f["psi_1"] == Int(0) || f["psi_1"] == Real(0.0) ==> Failure(L, Gauss, f) == Err(DivisionByZero)
  {
    assert "n" in f && "q" in f && "k" in f && "threshold" in f;
    assert "psi_1" in f && "rqc" in f && "rq2" in f;
  }

  /** With every field present and int moduli, the result is the outcome of
      the parts the two rounding laws give, once `n` and `k` are ints; a
      non-int `n` or `k` raises a TypeError. */
  lemma FailureOfInts(L: real -> real, Gauss: real -> Law, f: Fields, sigma: real, q: int, rqc: int, rq2: int)
    requires "n" in f && "k" in f && "threshold" in f && HasNumber(f, "psi_1", sigma) && sigma != 0.0
    requires HasInt(f, "q", q) && HasInt(f, "rqc", rqc) && HasInt(f, "rq2", rq2)
    requires q > 0 && rqc != 0 && rq2 != 0
    ensures var P := PartsFrom(Gauss(sigma), MsLaw(q, rqc).value, MsLaw(q, rq2).value);
      && (!f["n"].Int? ==> Failure(L, Gauss, f) == Err(WrongType("n")))
      && (f["n"].Int? && !f["k"].Int? ==> Failure(L, Gauss, f) == Err(WrongType("k")))
      && (f["n"].Int? && f["k"].Int? ==>
            Failure(L, Gauss, f) == Outcome(L, P, f["n"].i, f["k"].i, f["threshold"]))
  {
    assert Sigma(f["psi_1"]) == Ok(sigma);
    PartsOfInts(Gauss(sigma), q, rqc, rq2);
  }

  /** Only `n`, `q`, `k`, `threshold`, `psi_1`, `rqc` and `rq2` are read. */
  lemma IgnoresOtherFields(L: real -> real, Gauss: real -> Law, f: Fields, name: string, v: Value)
    requires name !in {"n", "q", "k", "threshold", "psi_1", "rqc", "rq2"}
    ensures Failure(L, Gauss, f[name := v]) == Failure(L, Gauss, f)
  {
    var g := f[name := v];
    forall x | x in {"n", "q", "k", "threshold", "psi_1", "rqc", "rq2"}
      ensures (x in g <==> x in f) && (x in f ==> g[x] == f[x])
    {
    }
    assert Field(g, "n") == Field(f, "n");
    assert Field(g, "q") == Field(f, "q");
    assert Field(g, "k") == Field(f, "k");
    assert Field(g, "threshold") == Field(f, "threshold");
    assert Field(g, "psi_1") == Field(f, "psi_1");
    assert Field(g, "rqc") == Field(f, "rqc");
    assert Field(g, "rq2") == Field(f, "rq2");
  }

  /** With the Gaussian law on [-g, g] and int moduli, a threshold at or
      beyond |n // 2 * k| (3 g^2 + 3 r^2) + r, r = g + q // 2, is out of
      reach: the result is minus infinity. */
  lemma NeverFailsBeyond(L: real -> real, Gauss: real -> Law, f: Fields, sigma: real, g: nat,
                         n: int, k: int, q: int, rqc: int, rq2: int, t: real)
    requires Log1pShape(L) && HasNumber(f, "psi_1", sigma) && sigma != 0.0 && Bounded(Gauss(sigma), g)
    requires HasInt(f, "n", n) && HasInt(f, "k", k) && HasNumber(f, "threshold", t)
    requires HasInt(f, "q", q) && HasInt(f, "rqc", rqc) && HasInt(f, "rq2", rq2)
    requires q > 0 && rqc != 0 && rq2 != 0
    requires Reach(n, k, TripleSquare(g), TripleSquare(g + q / 2), g + q / 2) as real <= t
    ensures Failure(L, Gauss, f) == Ok(MinusInfinity)
  {
    var G := Gauss(sigma);
    var Rc, Ep := MsLaw(q, rqc).value, MsLaw(q, rq2).value;
    var r := g + q / 2;
    assert Reach(n, k, TripleSquare(g), TripleSquare(r), r) as real <= t;
    assert AsNumber(f["threshold"], "threshold") == Ok(t);
    FailureOfInts(L, Gauss, f, sigma, q, rqc, rq2);
    MsOfInts(q, rqc, "rqc");
    MsOfInts(q, rq2, "rq2");
    GaussianPartsWithin(G, Rc, Ep, g, r);
    OutcomeBeyond(L, PartsFrom(G, Rc, Ep), n, k, f["threshold"], TripleSquare(g), TripleSquare(r), r, t);
  }

  /** The Gaussian law on [-g, g] and rounding errors on [-(r - g), r - g]:
      the first parts lie in [-3 g^2, 3 g^2], the second in [-3 r^2, 3 r^2]
      and `D_lin` in [-r, r]. */
  lemma GaussianPartsWithin(G: Law, Rc: Law, Ep: Law, g: nat, r: int)
    requires Bounded(G, g) && Bounded(Rc, r - g) && Bounded(Ep, r - g) && g <= r
    ensures PartsWithin(PartsFrom(G, Rc, Ep), TripleSquare(g), TripleSquare(r), r)
  {
    GaussianReWithin(G, Rc, Ep, g, r);
    GaussianSeWithin(G, Rc, Ep, g, r);
    LinBounded(G, Rc, Ep, g, r - g);
  }

  lemma GaussianReWithin(G: Law, Rc: Law, Ep: Law, g: nat, r: int)
    requires Bounded(G, g) && g <= r
    ensures Bounded(PartsFrom(G, Rc, Ep).re1, TripleSquare(g))
    ensures Bounded(PartsFrom(G, Rc, Ep).re2, TripleSquare(g))
  {
    ReTablesBounded(G, Rc, Ep, g);
    GaussBounds(g, r);
    BoundedWiden(PartsFrom(G, Rc, Ep).re1, g * g + g * g, TripleSquare(g));
  }

  lemma GaussianSeWithin(G: Law, Rc: Law, Ep: Law, g: nat, r: int)
    requires Bounded(G, g) && Bounded(Rc, r - g) && g <= r
    ensures Bounded(PartsFrom(G, Rc, Ep).se1, TripleSquare(r))
    ensures Bounded(PartsFrom(G, Rc, Ep).se2, TripleSquare(r))
  {
    SeTablesBounded(G, Rc, Ep, g, r);
    GaussBounds(g, r);
    BoundedWiden(PartsFrom(G, Rc, Ep).se1, g * g + r * r, TripleSquare(r));
    BoundedWiden(PartsFrom(G, Rc, Ep).se2, g * r + r * (g + g), TripleSquare(r));
  }

  /** 3 x^2. */
  function TripleSquare(x: int): int
  {
    3 * x * x
  }

  lemma GaussBounds(g: nat, r: int)
    requires g <= r
    ensures g * g + g * g <= TripleSquare(g) && g * g + g * (g + g) == TripleSquare(g)
    ensures g * g + r * r <= TripleSquare(r) && g * r + r * (g + g) <= TripleSquare(r)
  {
    assert g * g <= r * r && g * r <= r * r;
  }
}
