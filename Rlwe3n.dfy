/** The RLWE-3n scheme of src/failure/RLWE_3n.py. With `psi` the centered
    binomial law for k = 1, `law1` is the law of a1 a2 + b1 b2 and `law2`
    that of a1 b1 + b2 (a1 + a2) over four independent draws from `psi`.
    Block i < n // 2 convolves 2i copies of `law1` with n - 2i copies of
    `law2`; the last block is `law2` iterated n times and counts n // 2
    times. The threshold floor((q - 3) / 6) comes from `q` alone. */
module Rlwe3n {
  import opened Outcomes
  import opened Laws
  import opened Engine
  import opened BaseLaws
  import opened Iteration
  import opened IterationMass
  import opened Tails
  import opened Params
  import opened Reports
  import opened Chains
  import opened Tables
  import opened TableLaws
  import opened Blocks

  /** `build_table1()`. */
  ghost function Law1(): Law
  {
    Table(Cbd(1), Cbd(1), SquareKey)
  }

  /** `build_table2()`. */
  ghost function Law2(): Law
  {
    Table(Cbd(1), Cbd(1), CrossKey)
  }

  /** The number of copies of `law2` in block i. */
  function Rest(n: int, i: int): int
  {
    n - 2 * i
  }

  /** `D = law_convolution(iter(law1, 2 i), iter(law2, n - 2 i))`. */
  ghost function Block(law1: Law, law2: Law, n: int, i: int): Law
  {
    Conv(IterLaw(law1, 2 * i), IterLaw(law2, Rest(n, i)))
  }

  /** The laws of the blocks i in `range(n // 2)`. */
  ghost function BlockLaws(n: int): (Ds: seq<Law>)
    ensures |Ds| == Half(n)
    ensures forall i :: 0 <= i < Half(n) ==> Ds[i] == Block(Law1(), Law2(), n, i)
  {
    seq(Half(n), i requires 0 <= i < Half(n) => Block(Law1(), Law2(), n, i))
  }

  /** `D_last = iter_law_convolution(law2, n)`. */
  ghost function LastLaw(n: int): Law
  {
    IterLaw(Law2(), n)
  }

  /** `math.floor((q - 3) / 6)`. */
  function ThresholdOf(q: real): int
  {
    ((q - 3.0) / 6.0).Floor
  }

  /** The tails of the blocks at the threshold floor((q - 3) / 6). */
  ghost function BlockTails(n: int, q: real): (s: seq<real>)
    ensures |s| == Half(n)
  {
    TailsOf(BlockLaws(n), ThresholdOf(q) as real)
  }

  /** `tail_last`. */
  ghost function LastTail(n: int, q: real): real
  {
    TailAbove(LastLaw(n), ThresholdOf(q) as real)
  }

  /** What `compute_failure_probability(**params)` returns or raises, for
      `math.log1p` given as `L`. */
  ghost function Failure(L: real -> real, f: Fields): Result<Reported>
  {
    var nv :- Field(f, "n");
    var qv :- Field(f, "q");
    var q :- AsNumber(qv, "q");
    var n :- AsInt(nv, "n");
    Conclude(L, BlockTails(n, q), LastTail(n, q), n / 2)
  }

  // ---------------------------------------------------------------------
  // The builders and the computation

  method BuildTable1() returns (law: Law)
    ensures law == Law1()
  {
    var psi := BuildCenteredBinomialLaw(1);
    law := FillTable(psi, psi, SquareKey);
  }

  method BuildTable2() returns (law: Law)
    ensures law == Law2()
  {
    var psi := BuildCenteredBinomialLaw(1);
    law := FillTable(psi, psi, CrossKey);
  }

  /** `_compute_single_i`: the tail of block i. */
  method ComputeSingleI(i: int, n: int, law1: Law, law2: Law, threshold: int) returns (tail: real)
    ensures tail == TailAbove(Block(law1, law2, n, i), threshold as real)
  {
    var d1 := IterLawConvolution(law1, 2 * i);
    var d2 := IterLawConvolution(law2, Rest(n, i));
    var d := LawConvolution(d1, d2);
    tail := TailMass(d, threshold as real);
  }

  /** `pool.map(_compute_single_i, args_list)`, block after block: the
      tail of each block i in `range(n // 2)`, in the order of i. */
  method MapBlocks(n: int, law1: Law, law2: Law, threshold: int) returns (tails: seq<real>)
    requires law1 == Law1() && law2 == Law2()
    ensures tails == TailsOf(BlockLaws(n), threshold as real)
  {
    ghost var Ds := BlockLaws(n);
    tails := [];
    for i := 0 to Half(n)
      invariant |tails| == i
      invariant forall j :: 0 <= j < i ==> tails[j] == TailAbove(Ds[j], threshold as real)
    {
      var tail := ComputeSingleI(i, n, law1, law2, threshold);
      assert Ds[i] == Block(law1, law2, n, i);
      TailsExtend(Ds, threshold as real, tails, tail);
      tails := tails + [tail];
    }
    TailsOfPointwise(Ds, threshold as real, tails);
  }

  /** `compute_failure_probability`, with the blocks taken one after the
      other. */
  method ComputeFailureProbability(L: real -> real, params: Fields) returns (r: Result<Reported>)
    ensures r == Failure(L, params)
  {
    var nv :- Field(params, "n");
    var qv :- Field(params, "q");
    var law1 := BuildTable1();
    var law2 := BuildTable2();
    var q :- AsNumber(qv, "q");
    var threshold := ThresholdOf(q);
    var n :- AsInt(nv, "n");
    r := Evaluate(L, n, threshold, law1, law2);
  }

  /** The computation after the tables and the threshold: the block tails,
      their log1p sum, the last block counted n // 2 times, the verdict. */
  method Evaluate(L: real -> real, n: int, threshold: int, law1: Law, law2: Law) returns (r: Result<Reported>)
    requires law1 == Law1() && law2 == Law2()
    ensures r == Conclude(L, TailsOf(BlockLaws(n), threshold as real), TailAbove(LastLaw(n), threshold as real), n / 2)
  {
    var tails := MapBlocks(n, law1, law2, threshold);
    var lps :- SumLogSuccess(L, tails);
    var dLast := IterLawConvolution(law2, n);
    var tailLast := TailMass(dLast, threshold as real);
    var term :- Log1pTerm(L, tailLast);
    return Ok(Verdict(lps + Times(n / 2, term)));
  }

  // ---------------------------------------------------------------------
  // The two tables

  /** `law1` is a symmetric probability law on [-2, 2]. */
  lemma Table1Law()
    ensures NonNeg(Law1()) && Mass(Law1()) == 1.0 && Symmetric(Law1()) && Bounded(Law1(), 2)
  {
    CbdLaw(1);
    TableNonNeg(Cbd(1), Cbd(1), SquareKey);
    TableUnitMass(Cbd(1), Cbd(1), SquareKey);
    SquareTableSymmetric(Cbd(1), Cbd(1));
    SquareTableBounded(Cbd(1), Cbd(1), 1, 1);
  }

  /** `law2` is a symmetric probability law on [-3, 3]. */
  lemma Table2Law()
    ensures NonNeg(Law2()) && Mass(Law2()) == 1.0 && Symmetric(Law2()) && Bounded(Law2(), 3)
  {
    CbdLaw(1);
    TableNonNeg(Cbd(1), Cbd(1), CrossKey);
    TableUnitMass(Cbd(1), Cbd(1), CrossKey);
    CrossTableSymmetric(Cbd(1), Cbd(1));
    CrossTableBounded(Cbd(1), Cbd(1), 1, 1);
  }

  // ---------------------------------------------------------------------
  // The blocks

  /** Block 0 is `iter(law1, 0) = {0: 1}` convolved with `iter(law2, n)`:
      the last block. */
  lemma BlockZeroIsLast(law1: Law, law2: Law, n: int)
    ensures Block(law1, law2, n, 0) == IterLaw(law2, n)
  {
    IterZero(law1);
    ConvUnitLeft(IterLaw(law2, n));
  }

  /** So for n >= 2 the last tail is the tail of block 0. */
  lemma LastTailIsFirst(n: int, t: real)
    requires n >= 2
    ensures TailsOf(BlockLaws(n), t)[0] == TailAbove(LastLaw(n), t)
  {
    BlockZeroIsLast(Law1(), Law2(), n);
  }

  /** Block i of laws on [-2, 2] and [-3, 3] lies in [-(4i + 3(n - 2i)),
      4i + 3(n - 2i)], within [-3n, 3n]. */
  lemma BlockBounded(law1: Law, law2: Law, n: int, i: int)
    requires Bounded(law1, 2) && Bounded(law2, 3) && 0 <= i && 2 * i <= n
    ensures Bounded(Block(law1, law2, n, i), 3 * n)
  {
    IterPreserves(law1, 2 * i, 2);
    IterPreserves(law2, Rest(n, i), 3);
    ConvBounded(IterLaw(law1, 2 * i), IterLaw(law2, Rest(n, i)), Abs(2 * i) * 2, Abs(Rest(n, i)) * 3);
    BoundedWiden(Block(law1, law2, n, i), Abs(2 * i) * 2 + Abs(Rest(n, i)) * 3, 3 * n);
  }

  /** Every block and the last block lie in [-3n, 3n]. */
  lemma BlocksBounded(n: int)
    requires n >= 0
    ensures forall i :: 0 <= i < Half(n) ==> Bounded(BlockLaws(n)[i], 3 * n)
    ensures Bounded(LastLaw(n), 3 * n)
  {
    Table1Law();
    Table2Law();
    TablesBlocksBounded(n);
  }

  lemma TablesBlocksBounded(n: int)
    requires n >= 0 && Bounded(Law1(), 2) && Bounded(Law2(), 3)
    ensures forall i :: 0 <= i < Half(n) ==> Bounded(BlockLaws(n)[i], 3 * n)
    ensures Bounded(LastLaw(n), 3 * n)
  {
    forall i | 0 <= i < Half(n)
      ensures Bounded(BlockLaws(n)[i], 3 * n)
    {
      BlockBounded(Law1(), Law2(), n, i);
    }
    BlockBounded(Law1(), Law2(), n, 0);
    BlockZeroIsLast(Law1(), Law2(), n);
  }

  /** Sub-probability laws, so every tail lies in [0, 1]. */
  lemma BlockSubProbability(law1: Law, law2: Law, n: int, i: int)
    requires NonNeg(law1) && NonNeg(law2) && Mass(law1) <= 1.0 && Mass(law2) <= 1.0
    ensures NonNeg(Block(law1, law2, n, i)) && Mass(Block(law1, law2, n, i)) <= 1.0
  {
    IterAtMostOne(law1, 2 * i);
    IterAtMostOne(law2, Rest(n, i));
    ConvAtMostOne(IterLaw(law1, 2 * i), IterLaw(law2, Rest(n, i)));
  }

  lemma TailsNonNeg(n: int, t: real)
    ensures forall i :: 0 <= i < Half(n) ==> 0.0 <= TailsOf(BlockLaws(n), t)[i] <= 1.0
    ensures 0.0 <= TailAbove(LastLaw(n), t) <= 1.0
  {
    Table1Law();
    Table2Law();
    forall i | 0 <= i < Half(n)
      ensures NonNeg(BlockLaws(n)[i]) && Mass(BlockLaws(n)[i]) <= 1.0
    {
      BlockSubProbability(Law1(), Law2(), n, i);
    }
    TailsInUnit(BlockLaws(n), t);
    BlockSubProbability(Law1(), Law2(), n, 0);
    BlockZeroIsLast(Law1(), Law2(), n);
    TailAboveNonNeg(LastLaw(n), t);
    TailAboveAtMostMass(LastLaw(n), t);
  }

  // ---------------------------------------------------------------------
  // The result

  /** The exceptions raised before any block: a missing `n` or `q`, a `q`
      that is not a number, an `n` that is not an int. */
  lemma FieldErrors(L: real -> real, f: Fields)
    ensures "n" !in f ==> Failure(L, f) == Err(MissingField("n"))
    ensures "n" in f && "q" !in f ==> Failure(L, f) == Err(MissingField("q"))
    ensures "n" in f && "q" in f && f["q"].NoneValue? ==> Failure(L, f) == Err(WrongType("q"))
    ensures "n" in f && "q" in f && !f["q"].NoneValue? && !f["n"].Int? ==> Failure(L, f) == Err(WrongType("n"))
  {
  }

  /** Only `n` and `q` are read: the caller's `threshold`, `psi_1` and every
      other field leave the result unchanged. */
  lemma IgnoresOtherFields(L: real -> real, f: Fields, name: string, v: Value)
    requires name != "n" && name != "q"
    ensures Failure(L, f[name := v]) == Failure(L, f)
  {
    var g := f[name := v];
    assert ("n" in g <==> "n" in f) && ("n" in f ==> g["n"] == f["n"]);
    assert ("q" in g <==> "q" in f) && ("q" in f ==> g["q"] == f["q"]);
  }

  /** A tail of 1/2 or more makes `math.log1p` raise. */
  lemma LargeTailRaises(L: real -> real, f: Fields, n: int, q: real)
    requires HasInt(f, "n", n) && HasNumber(f, "q", q)
    requires (exists i :: 0 <= i < Half(n) && BlockTails(n, q)[i] >= 0.5)
          || LastTail(n, q) >= 0.5
    ensures Failure(L, f) == Err(MathDomain)
  {
    ConcludeFails(L, BlockTails(n, q), LastTail(n, q), n / 2);
  }

  /** With every tail below 1/2 the result is defined; it is minus infinity
      exactly when every block tail is 0, and otherwise `log2` of a
      positive number. */
  lemma MinusInfinityExactly(L: real -> real, f: Fields, n: int, q: real)
    requires Log1pShape(L) && HasInt(f, "n", n) && HasNumber(f, "q", q) && n >= 0
    requires forall i :: 0 <= i < Half(n) ==> BlockTails(n, q)[i] < 0.5
    requires LastTail(n, q) < 0.5
    ensures Failure(L, f).Ok?
    ensures Failure(L, f).value == MinusInfinity <==>
      forall i :: 0 <= i < Half(n) ==> BlockTails(n, q)[i] == 0.0
    ensures Failure(L, f).value.Log2Of? ==> Failure(L, f).value.arg > 0.0
  {
    var t := ThresholdOf(q) as real;
    TailsNonNeg(n, t);
    ConcludeSign(L, BlockTails(n, q), LastTail(n, q), n / 2);
    if n >= 2 {
      LastTailIsFirst(n, t);
    }
  }

  /** When the threshold floor((q - 3) / 6) is at least 3n no value can
      exceed it: the result is minus infinity. */
  lemma NeverFailsBeyond(L: real -> real, f: Fields, n: int, q: real)
    requires Log1pShape(L) && HasInt(f, "n", n) && HasNumber(f, "q", q) && n >= 0
    requires 3 * n <= ThresholdOf(q)
    ensures Failure(L, f) == Ok(MinusInfinity)
  {
    var t := ThresholdOf(q) as real;
    BlocksBounded(n);
    ZeroTails(BlockLaws(n), 3 * n, t);
    TailAboveBeyond(LastLaw(n), 3 * n, t);
    MinusInfinityExactly(L, f, n, q);
  }
}
