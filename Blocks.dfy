/** The block structure of the three-part (3n) schemes: one composite law
    per block i in `range(n // 2)`, the tail P(|X| > threshold) of each, and
    the running sum of `log1p(-2 * tail)` over the blocks. */
module Blocks {
  import opened Sums
  import opened Outcomes
  import opened Laws
  import opened IterationMass
  import opened Tails
  import opened Params
  import opened Reports

  /** The number of blocks `range(n // 2)` visits. */
  function Half(n: int): nat
  {
    if n < 2 then 0 else n / 2
  }

  /** The laws `f(0)`, ..., `f(m - 1)`. */
  ghost function Tabulate(f: int -> Law, m: nat): (Ds: seq<Law>)
    ensures |Ds| == m
  {
    if m == 0 then [] else Tabulate(f, m - 1) + [f(m - 1)]
  }

  lemma {:induction false} TabulateAt(f: int -> Law, m: nat, i: int)
    requires 0 <= i < m
    ensures Tabulate(f, m)[i] == f(i)
  {
    if i < m - 1 {
      TabulateAt(f, m - 1, i);
    }
  }

  /** Every law of `Ds` lies within [-m, m]. */
  ghost predicate AllBounded(Ds: seq<Law>, m: int)
  {
    forall i :: 0 <= i < |Ds| ==> Bounded(Ds[i], m)
  }

  /** Every law of `Ds` is a sub-probability law. */
  ghost predicate AllSubProbability(Ds: seq<Law>)
  {
    forall i :: 0 <= i < |Ds| ==> NonNeg(Ds[i]) && Mass(Ds[i]) <= 1.0
  }

  /** The tails of the laws `Ds` at the threshold `t`. */
  ghost function TailsOf(Ds: seq<Law>, t: real): (s: seq<real>)
    ensures |s| == |Ds|
    ensures forall i :: 0 <= i < |Ds| ==> s[i] == TailAbove(Ds[i], t)
  {
    seq(|Ds|, i requires 0 <= i < |Ds| => TailAbove(Ds[i], t))
  }

  /** Appending the tail of law i to the tails of laws 0..i-1. */
  lemma TailsExtend(Ds: seq<Law>, t: real, s: seq<real>, tail: real)
    requires |s| < |Ds| && forall j :: 0 <= j < |s| ==> s[j] == TailAbove(Ds[j], t)
    requires tail == TailAbove(Ds[|s|], t)
    ensures forall j :: 0 <= j < |s| + 1 ==> (s + [tail])[j] == TailAbove(Ds[j], t)
  {
  }

  /** A sequence holding the tail of each law, in order, is `TailsOf`. */
  lemma TailsOfPointwise(Ds: seq<Law>, t: real, s: seq<real>)
    requires |s| == |Ds| && forall j :: 0 <= j < |s| ==> s[j] == TailAbove(Ds[j], t)
    ensures s == TailsOf(Ds, t)
  {
  }

  /** The term of one block: its tail at the field value `tv`, then
      `math.log1p(-2 * tail)`. */
  ghost function Term(L: real -> real, D: Law, tv: Value): Result<real>
  {
    var t :- ThresholdTailAbove(D, tv);
    Log1pTerm(L, t)
  }

  /** Left to right, `lps += term`, stopping at the first exception. */
  function SumTerms(rs: seq<Result<real>>): Result<real>
  {
    if rs == [] then Ok(0.0)
    else
      var lps :- SumTerms(rs[..|rs| - 1]);
      var term :- rs[|rs| - 1];
      Ok(lps + term)
  }

  /** The terms of the blocks `Ds`, in block order. */
  ghost function TermsAt(L: real -> real, Ds: seq<Law>, tv: Value): (rs: seq<Result<real>>)
    ensures |rs| == |Ds|
    ensures forall i :: 0 <= i < |Ds| ==> rs[i] == Term(L, Ds[i], tv)
  {
    seq(|Ds|, i requires 0 <= i < |Ds| => Term(L, Ds[i], tv))
  }

  /** Block by block, `lps += term`, stopping at the first exception. */
  ghost function SerialSum(L: real -> real, Ds: seq<Law>, tv: Value): Result<real>
  {
    SumTerms(TermsAt(L, Ds, tv))
  }

  lemma TermsAtPrefix(L: real -> real, Ds: seq<Law>, tv: Value, j: int)
    requires 0 <= j <= |Ds|
    ensures TermsAt(L, Ds[..j], tv) == TermsAt(L, Ds, tv)[..j]
  {
    var a, b := TermsAt(L, Ds[..j], tv), TermsAt(L, Ds, tv)[..j];
    forall i | 0 <= i < j
      ensures a[i] == b[i]
    {
      assert Ds[..j][i] == Ds[i];
    }
  }

  /** One more term: the sum of the first `j + 1` terms from that of the
      first `j`. */
  lemma SumStep(rs: seq<Result<real>>, j: int, lps: real)
    requires 0 <= j < |rs| && SumTerms(rs[..j]) == Ok(lps)
    ensures rs[j].Err? ==> SumTerms(rs[..j + 1]) == Err(rs[j].error)
    ensures rs[j].Ok? ==> SumTerms(rs[..j + 1]) == Ok(lps + rs[j].value)
  {
    var p := rs[..j + 1];
    assert p[..|p| - 1] == rs[..j] && p[|p| - 1] == rs[j];
  }

  /** An exception among the first `j` terms is the exception of the whole
      sum. */
  lemma {:induction false} SumPrefix(rs: seq<Result<real>>, j: int)
    requires 0 <= j <= |rs| && SumTerms(rs[..j]).Err?
    ensures SumTerms(rs) == SumTerms(rs[..j])
    decreases |rs| - j
  {
    if j == |rs| {
      assert rs[..j] == rs;
    } else {
      assert rs[..j + 1][..j] == rs[..j];
      SumPrefix(rs, j + 1);
    }
  }

  /** One more block: the sum of the first `j + 1` blocks from that of the
      first `j`. */
  lemma SerialStep(L: real -> real, Ds: seq<Law>, tv: Value, j: int, lps: real, term: Result<real>)
    requires 0 <= j < |Ds| && SerialSum(L, Ds[..j], tv) == Ok(lps) && term == Term(L, Ds[j], tv)
    ensures term.Err? ==> SerialSum(L, Ds[..j + 1], tv) == Err(term.error)
    ensures term.Ok? ==> SerialSum(L, Ds[..j + 1], tv) == Ok(lps + term.value)
  {
    TermsAtPrefix(L, Ds, tv, j);
    TermsAtPrefix(L, Ds, tv, j + 1);
    SumStep(TermsAt(L, Ds, tv), j, lps);
  }

  /** The loop step over the blocks: an exception ends the whole sum, a
      term is added to it. */
  lemma SerialAdvance(L: real -> real, Ds: seq<Law>, tv: Value, j: int, lps: real, term: Result<real>)
    requires 0 <= j < |Ds| && SerialSum(L, Ds[..j], tv) == Ok(lps) && term == Term(L, Ds[j], tv)
    ensures term.Err? ==> SerialSum(L, Ds, tv) == Err(term.error)
    ensures term.Ok? ==> SerialSum(L, Ds[..j + 1], tv) == Ok(lps + term.value)
  {
    SerialStep(L, Ds, tv, j, lps, term);
    if term.Err? {
      TermsAtPrefix(L, Ds, tv, j + 1);
      SumPrefix(TermsAt(L, Ds, tv), j + 1);
    }
  }

  /** The sum over blocks splits into the sum over all blocks but the last
      and the last block's term. */
  lemma SerialLast(L: real -> real, Ds: seq<Law>, tv: Value)
    requires Ds != []
    ensures SerialSum(L, Ds, tv)
         == (var lps :- SerialSum(L, Ds[..|Ds| - 1], tv); var term :- Term(L, Ds[|Ds| - 1], tv); Ok(lps + term))
  {
    TermsAtPrefix(L, Ds, tv, |Ds| - 1);
  }

  lemma WholePrefix(Ds: seq<Law>)
    ensures Ds[..|Ds|] == Ds
  {
  }

  // ---------------------------------------------------------------------
  // The serial sum against the sum over the tails

  lemma EmptyTailAbove(t: real)
    ensures TailAbove(map[], t) == 0.0
  {
    var E: Law := map[];
    assert E.Keys == {};
  }

  /** With a numeric threshold the tail loop never raises. */
  lemma ThresholdNumber(D: Law, tv: Value)
    requires !tv.NoneValue?
    ensures ThresholdTailAbove(D, tv) == Ok(TailAbove(D, AsNumber(tv, "threshold").value))
  {
    if |D| == 0 {
      assert D == map[];
      EmptyTailAbove(AsNumber(tv, "threshold").value);
    }
  }

  lemma TermNumber(L: real -> real, D: Law, tv: Value)
    requires !tv.NoneValue?
    ensures Term(L, D, tv) == Log1pTerm(L, TailAbove(D, AsNumber(tv, "threshold").value))
  {
    ThresholdNumber(D, tv);
  }

  /** With a numeric threshold, taking each tail and then its term is
      summing the terms of the tails: the order in which the tails and the
      logarithms are taken does not change the outcome. */
  lemma {:induction false} SerialNumber(L: real -> real, Ds: seq<Law>, tv: Value)
    requires !tv.NoneValue?
    ensures SerialSum(L, Ds, tv) == LogSuccess(L, TailsOf(Ds, AsNumber(tv, "threshold").value))
    decreases |Ds|
  {
    if Ds != [] {
      var t := AsNumber(tv, "threshold").value;
      var p := Ds[..|Ds| - 1];
      SerialNumber(L, p, tv);
      SerialLast(L, Ds, tv);
      TermNumber(L, Ds[|Ds| - 1], tv);
      assert TailsOf(Ds, t)[..|Ds| - 1] == TailsOf(p, t);
    }
  }

  /** With a None threshold every non-empty block raises a TypeError, and
      only empty blocks, whose tail is 0, let the sum go through. */
  lemma {:induction false} SerialNone(L: real -> real, Ds: seq<Law>, tv: Value)
    requires tv.NoneValue?
    ensures SerialSum(L, Ds, tv).Err? <==> exists i :: 0 <= i < |Ds| && |Ds[i]| > 0
    ensures SerialSum(L, Ds, tv).Err? ==> SerialSum(L, Ds, tv).error == WrongType("threshold")
    decreases |Ds|
  {
    if Ds != [] {
      var p, D := Ds[..|Ds| - 1], Ds[|Ds| - 1];
      SerialNone(L, p, tv);
      SerialLast(L, Ds, tv);
      NoneBlock(L, D, tv);
      assert forall i :: 0 <= i < |p| ==> p[i] == Ds[i];
      assert (exists i :: 0 <= i < |Ds| && |Ds[i]| > 0)
         <==> (exists i :: 0 <= i < |p| && |p[i]| > 0) || |D| > 0;
    }
  }

  lemma NoneBlock(L: real -> real, D: Law, tv: Value)
    requires tv.NoneValue?
    ensures |D| > 0 ==> ThresholdTailAbove(D, tv) == Err(WrongType("threshold"))
    ensures |D| > 0 ==> Term(L, D, tv) == Err(WrongType("threshold"))
    ensures |D| == 0 ==> ThresholdTailAbove(D, tv) == Ok(0.0) && Term(L, D, tv).Ok?
  {
  }

  // ---------------------------------------------------------------------
  // Tails of bounded and of sub-probability laws

  /** Laws whose values all lie within the threshold have no tail. */
  lemma ZeroTails(Ds: seq<Law>, m: int, t: real)
    requires AllBounded(Ds, m)
    requires m as real <= t
    ensures forall i :: 0 <= i < |Ds| ==> TailsOf(Ds, t)[i] == 0.0
  {
    forall i | 0 <= i < |Ds|
      ensures TailsOf(Ds, t)[i] == 0.0
    {
      TailAboveBeyond(Ds[i], m, t);
    }
  }

  /** Sub-probability laws have tails in [0, 1]. */
  lemma TailsInUnit(Ds: seq<Law>, t: real)
    requires AllSubProbability(Ds)
    ensures forall i :: 0 <= i < |Ds| ==> 0.0 <= TailsOf(Ds, t)[i] <= 1.0
  {
    forall i | 0 <= i < |Ds|
      ensures 0.0 <= TailsOf(Ds, t)[i] <= 1.0
    {
      TailAboveNonNeg(Ds[i], t);
      TailAboveAtMostMass(Ds[i], t);
    }
  }

  /** Whatever order the block tails arrive in, the result is the same. */
  lemma ConcludeAnyOrder(L: real -> real, s: seq<real>, t: seq<real>, last: real, half: int)
    requires multiset(s) == multiset(t)
    ensures Conclude(L, s, last, half) == Conclude(L, t, last, half)
  {
    LogSuccessPermutation(L, s, t);
  }
  // ---------------------------------------------------------------------
  // The serial blocks followed by a last block

  /** After the blocks: the tail of the last block `D` at `tv`, its term
      counted `half` times, and the verdict. */
  ghost function Closing(L: real -> real, lps: real, D: Law, tv: Value, half: int): Result<Reported>
  {
    var last :- ThresholdTailAbove(D, tv);
    var term :- Log1pTerm(L, last);
    Ok(Verdict(lps + Times(half, term)))
  }

  /** The blocks `Ds` one after the other, then the last block `D`. */
  ghost function Finish(L: real -> real, Ds: seq<Law>, D: Law, tv: Value, half: int): Result<Reported>
  {
    var lps :- SerialSum(L, Ds, tv);
    Closing(L, lps, D, tv, half)
  }

  method Close(L: real -> real, lps: real, D: Law, tv: Value, half: int) returns (r: Result<Reported>)
    ensures r == Closing(L, lps, D, tv, half)
  {
    var last :- TailAboveAtThreshold(D, tv);
    var term :- Log1pTerm(L, last);
    return Ok(Verdict(lps + Times(half, term)));
  }

  /** With a numeric threshold t, the 3n conclusion over the tails at t. */
  lemma FinishNumber(L: real -> real, Ds: seq<Law>, D: Law, tv: Value, half: int)
    requires !tv.NoneValue?
    ensures var t := AsNumber(tv, "threshold").value;
      Finish(L, Ds, D, tv, half) == Conclude(L, TailsOf(Ds, t), TailAbove(D, t), half)
  {
    SerialNumber(L, Ds, tv);
    ThresholdNumber(D, tv);
  }

  /** With a None threshold, a TypeError exactly when some block or the last
      block is not empty. */
  lemma FinishNone(L: real -> real, Ds: seq<Law>, D: Law, tv: Value, half: int)
    requires tv.NoneValue?
    ensures Finish(L, Ds, D, tv, half).Err? <==> (exists i :: 0 <= i < |Ds| && |Ds[i]| > 0) || |D| > 0
    ensures Finish(L, Ds, D, tv, half).Err? ==> Finish(L, Ds, D, tv, half).error == WrongType("threshold")
  {
    SerialNone(L, Ds, tv);
    NoneBlock(L, D, tv);
  }

  /** Any order of the block tails gives the same result. */
  lemma FinishAnyOrder(L: real -> real, Ds: seq<Law>, D: Law, tv: Value, half: int, s: seq<real>)
    requires !tv.NoneValue? && multiset(s) == multiset(TailsOf(Ds, AsNumber(tv, "threshold").value))
    ensures Finish(L, Ds, D, tv, half) == Conclude(L, s, TailAbove(D, AsNumber(tv, "threshold").value), half)
  {
    var t := AsNumber(tv, "threshold").value;
    FinishNumber(L, Ds, D, tv, half);
    ConcludeAnyOrder(L, TailsOf(Ds, t), s, TailAbove(D, t), half);
  }

  /** A tail of 1/2 or more raises a math domain error. */
  lemma FinishFails(L: real -> real, Ds: seq<Law>, D: Law, tv: Value, half: int)
    requires !tv.NoneValue?
    requires var t := AsNumber(tv, "threshold").value;
      (exists i :: 0 <= i < |Ds| && TailsOf(Ds, t)[i] >= 0.5) || TailAbove(D, t) >= 0.5
    ensures Finish(L, Ds, D, tv, half) == Err(MathDomain)
  {
    var t := AsNumber(tv, "threshold").value;
    FinishNumber(L, Ds, D, tv, half);
    ConcludeFails(L, TailsOf(Ds, t), TailAbove(D, t), half);
  }

  /** `r` is a value: minus infinity exactly when `zero` holds, and
      otherwise `log2` of a positive number. */
  ghost predicate Signed(r: Result<Reported>, zero: bool)
  {
    && r.Ok?
    && (r.value == MinusInfinity <==> zero)
    && (r.value.Log2Of? ==> r.value.arg > 0.0)
  }

  /** The last block is block 0, counted `half` times, and no blocks means
      no repetitions. */
  ghost predicate LastIsFirst(Ds: seq<Law>, D: Law, half: int)
  {
    half >= 0 && (|Ds| == 0 ==> half == 0) && (|Ds| > 0 ==> Ds[0] == D)
  }

  /** Sub-probability blocks with every tail below 1/2: the result is
      defined, minus infinity exactly when every block tail is 0, and
      otherwise `log2` of a positive number. */
  lemma FinishMinusInfinity(L: real -> real, Ds: seq<Law>, D: Law, tv: Value, half: int)
    requires Log1pShape(L) && !tv.NoneValue? && LastIsFirst(Ds, D, half)
    requires AllSubProbability(Ds)
    requires NonNeg(D)
    requires var t := AsNumber(tv, "threshold").value;
      BelowHalf(TailsOf(Ds, t)) && TailAbove(D, t) < 0.5
    ensures Signed(Finish(L, Ds, D, tv, half), AllZero(TailsOf(Ds, AsNumber(tv, "threshold").value)))
  {
    var t := AsNumber(tv, "threshold").value;
    var s := TailsOf(Ds, t);
    FinishNumber(L, Ds, D, tv, half);
    TailsInUnit(Ds, t);
    TailAboveNonNeg(D, t);
    ConcludeSign(L, s, TailAbove(D, t), half);
  }

  /** Blocks and last block within a reach the threshold does not fall
      short of: minus infinity. */
  lemma FinishBeyond(L: real -> real, Ds: seq<Law>, D: Law, tv: Value, half: int, m: int)
    requires Log1pShape(L) && !tv.NoneValue?
    requires AllBounded(Ds, m)
    requires Bounded(D, m) && m as real <= AsNumber(tv, "threshold").value
    ensures Finish(L, Ds, D, tv, half) == Ok(MinusInfinity)
  {
    var t := AsNumber(tv, "threshold").value;
    FinishNumber(L, Ds, D, tv, half);
    ZeroTails(Ds, m, t);
    TailAboveBeyond(D, m, t);
    ConcludeZero(L, TailsOf(Ds, t), half);
  }
}
