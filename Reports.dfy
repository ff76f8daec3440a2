/** What a failure module returns. The LWE, LWR and 2n modules return
    `log(x) / log(2)` of a failure probability; the 3n modules sum
    `log1p(-2 t)` over the tails `t` of their blocks into a log-probability
    of success `lps` and return `log(-lps, 2)`, or minus infinity when
    `lps` is not negative. The natural logarithm behind `log1p` is a
    parameter `L`: only its shape near 0 is used. */
module Reports {
  import opened Outcomes
  import opened Laws
  import opened Tails
  import opened Params

  /** `Log2Of(x)` stands for the float `log(x) / log(2)`. */
  datatype Reported = Log2Of(arg: real) | MinusInfinity

  /** `math.log(x) / math.log(2)`: `math.log` raises a ValueError unless x > 0. */
  function Log2Report(x: real): (r: Result<Reported>)
    ensures r.Ok? <==> x > 0.0
    ensures r.Ok? ==> r.value == Log2Of(x)
    ensures r.Err? ==> r.error == MathDomain
  {
    if x > 0.0 then Ok(Log2Of(x)) else Err(MathDomain)
  }

  /** `tail_probability(F, ps.threshold)`: an empty law gives 0 before the
      threshold is looked at; otherwise the comparison `t >= max(D)` needs
      a number. */
  ghost function ThresholdTail(D: Law, tv: Value): (r: Result<real>)
    ensures r.Err? <==> |D| > 0 && tv.NoneValue?
  {
    if |D| == 0 then Ok(0.0)
    else
      var t :- AsNumber(tv, "threshold");
      Ok(TailProbabilityOf(D, t))
  }

  method TailAtThreshold(D: Law, tv: Value) returns (r: Result<real>)
    ensures r == ThresholdTail(D, tv)
  {
    if |D| == 0 {
      return Ok(0.0);
    }
    var t :- AsNumber(tv, "threshold");
    var s := TailProbability(D, t);
    return Ok(s);
  }

  /** `sum(p for x, p in D.items() if abs(x) > threshold)`: the comparison
      is made only when there is an item. */
  ghost function ThresholdTailAbove(D: Law, tv: Value): (r: Result<real>)
    ensures r.Err? <==> |D| > 0 && tv.NoneValue?
  {
    if |D| == 0 then Ok(0.0)
    else
      var t :- AsNumber(tv, "threshold");
      Ok(TailAbove(D, t))
  }

  method TailAboveAtThreshold(D: Law, tv: Value) returns (r: Result<real>)
    ensures r == ThresholdTailAbove(D, tv)
  {
    if |D| == 0 {
      return Ok(0.0);
    }
    var t :- AsNumber(tv, "threshold");
    var s := TailMass(D, t);
    return Ok(s);
  }

  /** A failure probability at a threshold beyond every value is 0, so
      `log(proba)` raises. */
  lemma ReportBeyond(D: Law, m: int, tv: Value, c: real)
    requires Bounded(D, m) && !tv.NoneValue? && m as real <= AsNumber(tv, "threshold").value
    ensures ThresholdTail(D, tv) == Ok(0.0)
    ensures Log2Report(c * ThresholdTail(D, tv).value) == Err(MathDomain)
  {
    if |D| > 0 {
      TailProbabilityBeyond(D, m, AsNumber(tv, "threshold").value);
    }
  }

  /** `n * p`, the float product of an int and a float. */
  function Times(n: int, p: real): real
  {
    n as real * p
  }

  /** `log(ps.n * tail_probability(F, ps.threshold)) / log(2)` on the
      namespace `g`: the tail counted once per coefficient of the message. */
  ghost function PerCoefficient(g: Fields, F: Law): Result<Reported>
  {
    var tv :- Field(g, "threshold");
    var p :- ThresholdTail(F, tv);
    var n :- IntField(g, "n");
    Log2Report(Times(n, p))
  }

  method ReportPerCoefficient(g: Fields, F: Law) returns (r: Result<Reported>)
    ensures r == PerCoefficient(g, F)
  {
    var tv :- Field(g, "threshold");
    var p :- TailAtThreshold(F, tv);
    var n :- IntField(g, "n");
    return Log2Report(Times(n, p));
  }

  /** Beyond every value of `F` the tail is 0, so `log(n * 0)` raises whatever `n` is. */
  lemma PerCoefficientBeyond(g: Fields, F: Law, m: int, n: int, t: real)
    requires Bounded(F, m) && HasNumber(g, "threshold", t) && HasInt(g, "n", n) && m as real <= t
    ensures PerCoefficient(g, F) == Err(MathDomain)
  {
    ReportBeyond(F, m, g["threshold"], n as real);
  }

  /** `math.log1p(-2 * t)`: a ValueError unless -2t > -1. */
  function Log1pTerm(L: real -> real, t: real): (r: Result<real>)
    ensures r.Ok? <==> t < 0.5
    ensures r.Ok? ==> r.value == L(-2.0 * t)
    ensures r.Err? ==> r.error == MathDomain
  {
    if -2.0 * t > -1.0 then Ok(L(-2.0 * t)) else Err(MathDomain)
  }

  /** The sum of the terms of `s`, left to right. */
  function Terms(L: real -> real, s: seq<real>): real
  {
    if s == [] then 0.0 else Terms(L, s[..|s| - 1]) + L(-2.0 * s[|s| - 1])
  }

  /** `lps = 0; for t in tails: lps += math.log1p(-2 * t)`, stopping at the
      first term out of the domain. */
  function LogSuccess(L: real -> real, s: seq<real>): Result<real>
  {
    if s == [] then Ok(0.0)
    else
      var lps :- LogSuccess(L, s[..|s| - 1]);
      var t :- Log1pTerm(L, s[|s| - 1]);
      Ok(lps + t)
  }

  /** The accumulation loop of the 3n modules. */
  method SumLogSuccess(L: real -> real, tails: seq<real>) returns (r: Result<real>)
    ensures r == LogSuccess(L, tails)
  {
    var lps := 0.0;
    for k := 0 to |tails|
      invariant LogSuccess(L, tails[..k]) == Ok(lps)
    {
      assert tails[..k + 1][..k] == tails[..k];
      if tails[k] >= 0.5 {
        LogSuccessFailsAt(L, tails, k);
        return Err(MathDomain);
      }
      lps := lps + L(-2.0 * tails[k]);
    }
    assert tails[..|tails|] == tails;
    return Ok(lps);
  }

  /** `if lps < 0: return math.log(-lps, 2) else: return float('-inf')`. */
  function Verdict(lps: real): Reported
  {
    if lps < 0.0 then Log2Of(-lps) else MinusInfinity
  }

  /** The end of a 3n module: the block terms, then `half` times the term of
      the last tail (`lps += (n // 2) * math.log1p(-2 * tail_last)`, whose
      `log1p` is evaluated even when `half` is 0), then the verdict. */
  function Conclude(L: real -> real, blocks: seq<real>, last: real, half: int): Result<Reported>
  {
    var lps :- LogSuccess(L, blocks);
    var t :- Log1pTerm(L, last);
    Ok(Verdict(lps + Times(half, t)))
  }

  // ---------------------------------------------------------------------
  // The domain of the sum

  /** The sum succeeds exactly when every tail is below 1/2, and then it is
      the plain sum of the terms; the only error is a math domain error. */
  lemma {:induction false} LogSuccessSpec(L: real -> real, s: seq<real>)
    ensures LogSuccess(L, s).Ok? <==> forall i :: 0 <= i < |s| ==> s[i] < 0.5
    ensures LogSuccess(L, s).Ok? ==> LogSuccess(L, s).value == Terms(L, s)
    ensures LogSuccess(L, s).Err? ==> LogSuccess(L, s).error == MathDomain
    decreases |s|
  {
    if s != [] {
      var p := s[..|s| - 1];
      LogSuccessSpec(L, p);
      assert forall i :: 0 <= i < |p| ==> p[i] == s[i];
    }
  }

  lemma LogSuccessFailsAt(L: real -> real, s: seq<real>, k: int)
    requires 0 <= k < |s| && s[k] >= 0.5
    ensures LogSuccess(L, s) == Err(MathDomain)
  {
    LogSuccessSpec(L, s);
  }

  // ---------------------------------------------------------------------
  // The order of the tails does not matter

  lemma {:induction false} TermsAppend(L: real -> real, a: seq<real>, b: seq<real>)
    ensures Terms(L, a + b) == Terms(L, a) + Terms(L, b)
    decreases |b|
  {
    if b == [] {
      assert a + b == a;
    } else {
      var p := b[..|b| - 1];
      assert (a + b)[..|a + b| - 1] == a + p;
      TermsAppend(L, a, p);
    }
  }

  lemma {:induction false} TermsRemove(L: real -> real, t: seq<real>, j: int)
    requires 0 <= j < |t|
    ensures Terms(L, t) == Terms(L, t[..j] + t[j + 1..]) + L(-2.0 * t[j])
  {
    var a, x, b := t[..j], t[j], t[j + 1..];
    assert t == (a + [x]) + b;
    TermsAppend(L, a + [x], b);
    TermsAppend(L, a, b);
    TermsSnoc(L, a, x);
  }

  lemma TermsSnoc(L: real -> real, a: seq<real>, x: real)
    ensures Terms(L, a + [x]) == Terms(L, a) + L(-2.0 * x)
  {
    assert (a + [x])[..|a|] == a;
  }

  lemma MultisetRemove(t: seq<real>, j: int)
    requires 0 <= j < |t|
    ensures multiset(t[..j] + t[j + 1..]) == multiset(t) - multiset{t[j]}
  {
    assert t == t[..j] + [t[j]] + t[j + 1..];
  }

  /** Summing the tails in any order gives the same log-probability. */
  lemma {:induction false} TermsPermutation(L: real -> real, s: seq<real>, t: seq<real>)
    requires multiset(s) == multiset(t)
    ensures Terms(L, s) == Terms(L, t)
    decreases |s|
  {
    if s == [] {
      assert |t| == |multiset(t)| == 0;
    } else {
      var j := MatchLast(s, t);
      var x, p, u := s[|s| - 1], s[..|s| - 1], t[..j] + t[j + 1..];
      TermsPermutation(L, p, u);
      TermsRemove(L, t, j);
      TermsSnoc(L, p, x);
      assert s == p + [x];
    }
  }

  /** The last element of `s` sits at some index j of its permutation `t`,
      and what remains of both is again a permutation. */
  lemma MatchLast(s: seq<real>, t: seq<real>) returns (j: int)
    requires multiset(s) == multiset(t) && s != []
    ensures 0 <= j < |t| && t[j] == s[|s| - 1]
    ensures multiset(s[..|s| - 1]) == multiset(t[..j] + t[j + 1..])
  {
    var x := s[|s| - 1];
    assert s == s[..|s| - 1] + [x];
    assert x in multiset(t);
    j :| 0 <= j < |t| && t[j] == x;
    MultisetRemove(t, j);
  }

  /** The accumulation is the same whatever order the workers deliver
      their results in. */
  lemma LogSuccessPermutation(L: real -> real, s: seq<real>, t: seq<real>)
    requires multiset(s) == multiset(t)
    ensures LogSuccess(L, s) == LogSuccess(L, t)
  {
    LogSuccessSpec(L, s);
    LogSuccessSpec(L, t);
    if forall i :: 0 <= i < |s| ==> s[i] < 0.5 {
      forall j | 0 <= j < |t|
        ensures t[j] < 0.5
      {
        assert t[j] in multiset(s);
      }
      TermsPermutation(L, s, t);
    } else {
      var i :| 0 <= i < |s| && !(s[i] < 0.5);
      assert s[i] in multiset(t);
    }
  }

  // ---------------------------------------------------------------------
  // When the result is minus infinity

  /** What is used of `log1p`: it is 0 at 0 and negative on (-1, 0). */
  ghost predicate Log1pShape(L: real -> real)
  {
    L(0.0) == 0.0 && forall x :: -1.0 < x < 0.0 ==> L(x) < 0.0
  }

  /** Every tail is 0. */
  ghost predicate AllZero(s: seq<real>)
  {
    forall i :: 0 <= i < |s| ==> s[i] == 0.0
  }

  /** Every tail is below 1/2. */
  ghost predicate BelowHalf(s: seq<real>)
  {
    forall i :: 0 <= i < |s| ==> s[i] < 0.5
  }

  ghost predicate TailsInRange(s: seq<real>)
  {
    forall i :: 0 <= i < |s| ==> 0.0 <= s[i] < 0.5
  }

  lemma TermAt(L: real -> real, t: real)
    requires Log1pShape(L) && 0.0 <= t < 0.5
    ensures L(-2.0 * t) <= 0.0
    ensures L(-2.0 * t) == 0.0 <==> t == 0.0
  {
    if t == 0.0 {
      assert -2.0 * t == 0.0;
    } else {
      assert -1.0 < -2.0 * t < 0.0;
    }
  }

  /** With tails in [0, 1/2) the sum is at most 0, and it is 0 exactly when
      every tail is 0. */
  lemma {:induction false} TermsSign(L: real -> real, s: seq<real>)
    requires Log1pShape(L) && TailsInRange(s)
    ensures Terms(L, s) <= 0.0
    ensures Terms(L, s) == 0.0 <==> forall i :: 0 <= i < |s| ==> s[i] == 0.0
    decreases |s|
  {
    if s != [] {
      var p := s[..|s| - 1];
      assert forall i :: 0 <= i < |p| ==> p[i] == s[i];
      TermsSign(L, p);
      TermAt(L, s[|s| - 1]);
    }
  }

  lemma ScaledTerm(h: real, t: real)
    requires h >= 0.0 && t <= 0.0
    ensures h * t <= 0.0
    ensures h * t == 0.0 <==> h == 0.0 || t == 0.0
  {
  }

  /** Tails that are all 0: the result is minus infinity, whatever the
      number of repetitions of the last block. */
  lemma ConcludeZero(L: real -> real, blocks: seq<real>, half: int)
    requires Log1pShape(L) && forall i :: 0 <= i < |blocks| ==> blocks[i] == 0.0
    ensures Conclude(L, blocks, 0.0, half) == Ok(MinusInfinity)
  {
    LogSuccessSpec(L, blocks);
    TermsSign(L, blocks);
  }

  /** For tails in [0, 1/2) the 3n result is always defined, and it is
      minus infinity exactly when every block tail is 0 and either there are
      no blocks to repeat (`half` is 0) or the last tail is 0 too; otherwise
      it is `log2(-lps)` of a negative `lps`. */
  lemma ConcludeSign(L: real -> real, blocks: seq<real>, last: real, half: int)
    requires Log1pShape(L) && TailsInRange(blocks) && 0.0 <= last < 0.5 && half >= 0
    ensures Conclude(L, blocks, last, half).Ok?
    ensures Conclude(L, blocks, last, half).value == MinusInfinity <==>
      (forall i :: 0 <= i < |blocks| ==> blocks[i] == 0.0) && (half == 0 || last == 0.0)
    ensures Conclude(L, blocks, last, half).value.Log2Of? ==> Conclude(L, blocks, last, half).value.arg > 0.0
  {
    LogSuccessSpec(L, blocks);
    TermsSign(L, blocks);
    TermAt(L, last);
    ScaledTerm(half as real, L(-2.0 * last));
  }

  /** A tail of 1/2 or more anywhere makes the 3n module raise. */
  lemma ConcludeFails(L: real -> real, blocks: seq<real>, last: real, half: int)
    requires (exists i :: 0 <= i < |blocks| && blocks[i] >= 0.5) || last >= 0.5
    ensures Conclude(L, blocks, last, half) == Err(MathDomain)
  {
    LogSuccessSpec(L, blocks);
  }
}
