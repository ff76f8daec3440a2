/** The NTRU scheme of src/failure/NTRU.py: the one-shot error is the sum of
    `f m`, a scaled ternary product iterated `wt` times, and `g r`, a sum of
    `wt` values of +-3; decryption fails when it exceeds `q // 2 - 2`. */
module Ntru {
  import opened Sums
  import opened Laws
  import opened Engine
  import opened Iteration
  import opened IterationMass
  import opened IterationPower
  import opened Scaling
  import opened Tails
  import opened Chains
  import opened Outcomes
  import opened Params

  /** `t_fm`: -1, 0 and 1, each with probability 1/3. */
  const TFm: Law := map[-1 := 1.0 / 3.0, 0 := 1.0 / 3.0, 1 := 1.0 / 3.0]

  /** `t_gr`: -3 and 3, each with probability 1/2. */
  const TGr: Law := map[-3 := 0.5, 3 := 0.5]

  /** The weight `q // 8 - 2`; Dafny's `/` by the positive 8 floors, as
      Python's `//` does. */
  function Weight(q: int): int
  {
    q / 8 - 2
  }

  /** The threshold `q // 2 - 2`. */
  function Threshold(q: int): int
  {
    q / 2 - 2
  }

  /** `Dfm = dist_scale(iter_law_convolution(t_fm, wt), 3)`. */
  ghost function Dfm(q: int): Law
  {
    Scaled(IterLaw(TFm, Weight(q)), 3)
  }

  /** `Dgr = iter_law_convolution(t_gr, wt)`. */
  ghost function Dgr(q: int): Law
  {
    IterLaw(TGr, Weight(q))
  }

  /** `one_shot_dist = law_convolution(Dfm, Dgr)`. */
  ghost function OneShot(q: int): Law
  {
    Conv(Dfm(q), Dgr(q))
  }

  /** What `calculate_decryption_failure_probability(n, q)` returns. */
  ghost function FailureProbability(q: int): real
  {
    TailProbabilityOf(OneShot(q), Threshold(q) as real)
  }

  /** `calculate_decryption_failure_probability`: it also builds the laws of
      `f` and `g`, which no later step reads, so the result depends on `q`
      alone. */
  method CalculateDecryptionFailureProbability(n: int, q: int) returns (p: real)
    ensures p == FailureProbability(q)
  {
    var wt := q / 8 - 2;
    var t := map[0 := 1.0 / 3.0, 1 := 2.0 / 3.0];
    var df := IterLawConvolution(t, n - 1);
    df := DistScale(df, 9);
    var dg := map[9 * wt := 1.0];
    var dfm := IterLawConvolution(TFm, wt);
    dfm := DistScale(dfm, 3);
    var dgr := IterLawConvolution(TGr, wt);
    var oneShot := LawConvolution(dfm, dgr);
    var threshold := q / 2 - 2;
    p := TailProbability(oneShot, threshold as real);
  }

  /** What `compute_failure_probability(**params)` reports: `int` of the
      fields n and q (an absent field reads as None and raises a
      TypeError), and the failure probability for q. The string that shows
      `-log2` of the probability is not modelled; its three values are. */
  ghost function Summary(f: Fields): Result<(int, int, real)>
  {
    var n :- Truncate(GetOrNone(f, "n"), "n");
    var q :- Truncate(GetOrNone(f, "q"), "q");
    Ok((n, q, FailureProbability(q)))
  }

  method ComputeFailureProbability(params: Fields) returns (r: Result<(int, int, real)>)
    ensures r == Summary(params)
  {
    var n :- Truncate(GetOrNone(params, "n"), "n");
    var q :- Truncate(GetOrNone(params, "q"), "q");
    var p := CalculateDecryptionFailureProbability(n, q);
    return Ok((n, q, p));
  }

  /** The wrapper fails exactly when n or q is absent or None, and then
      with the TypeError of the first of them; otherwise the reported
      probability is that of the truncated q, whatever n is. */
  lemma SummaryCases(f: Fields)
    ensures Summary(f).Err? <==> GetOrNone(f, "n").NoneValue? || GetOrNone(f, "q").NoneValue?
    ensures GetOrNone(f, "n").NoneValue? ==> Summary(f) == Err(WrongType("n"))
    ensures !GetOrNone(f, "n").NoneValue? && GetOrNone(f, "q").NoneValue? ==> Summary(f) == Err(WrongType("q"))
    ensures Summary(f).Ok? ==>
              Truncate(GetOrNone(f, "q"), "q") == Ok(Summary(f).value.1) &&
              Summary(f).value.2 == FailureProbability(Summary(f).value.1)
  {
  }

  // ---------------------------------------------------------------------
  // The two base laws

  lemma TFmLaw()
    ensures NonNeg(TFm) && Symmetric(TFm) && Bounded(TFm, 1) && Mass(TFm) == 1.0
  {
    TFmMass();
  }

  lemma TFmMass()
    ensures Mass(TFm) == 1.0
  {
    var f := Density(TFm);
    assert TFm.Keys == {-1, 0, 1};
    SumRemove({-1, 0, 1}, f, 0);
    assert {-1, 0, 1} - {0} == {-1, 1};
    SumRemove({-1, 1}, f, 1);
    assert {-1, 1} - {1} == {-1};
    SumSingleton(-1, f);
  }

  lemma TGrLaw()
    ensures NonNeg(TGr) && Symmetric(TGr) && Bounded(TGr, 3) && Mass(TGr) == 1.0
    ensures MultiplesOf(TGr, 3)
  {
    var f := Density(TGr);
    assert TGr.Keys == {-3, 3};
    SumRemove({-3, 3}, f, 3);
    assert {-3, 3} - {3} == {-3};
    SumSingleton(-3, f);
  }

  // ---------------------------------------------------------------------
  // Every value of the one-shot error is a multiple of 3

  /** Every key of `A` is a multiple of `c`. */
  ghost predicate MultiplesOf(A: Law, c: int)
    requires c != 0
  {
    forall x :: x in A ==> x % c == 0
  }

  lemma AddMultiples(a: int, b: int, c: int)
    requires c != 0 && a % c == 0 && b % c == 0
    ensures (a + b) % c == 0
  {
    assert a == (a / c) * c;
    assert b == (b / c) * c;
    assert a + b == (a / c + b / c) * c;
    MulMod(a / c + b / c, c);
  }

  lemma ConvMultiples(A: Law, B: Law, c: int)
    requires c != 0 && MultiplesOf(A, c) && MultiplesOf(B, c)
    ensures MultiplesOf(Conv(A, B), c)
  {
    forall x | x in Conv(A, B)
      ensures x % c == 0
    {
      ConvKeys(A, B, x);
      var a, b :| a in A && b in B && x == a + b;
      AddMultiples(a, b, c);
    }
  }

  /** Pruning and convolving with a law on multiples of `c` keep the keys
      multiples of `c`. */
  lemma StepMultiples(D: Law, A: Law, ch: char, c: int)
    requires c != 0 && MultiplesOf(D, c) && MultiplesOf(A, c)
    ensures MultiplesOf(Step(D, A, ch), c)
  {
    ConvMultiples(D, D, c);
    if ch == '1' {
      ConvMultiples(Clean(Conv(D, D)), A, c);
      StepOne(D, A, ch);
    } else {
      StepNotOne(D, A, ch);
    }
  }

  lemma {:induction false} RunMultiples(A: Law, s: string, c: int)
    requires c != 0 && MultiplesOf(A, c)
    ensures MultiplesOf(Run(A, s), c)
    decreases |s|
  {
    if s != [] {
      var p, ch := s[..|s| - 1], s[|s| - 1];
      assert s == p + [ch];
      RunMultiples(A, p, c);
      StepMultiples(Run(A, p), A, ch, c);
      RunSnoc(A, p, ch);
    }
  }

  /** Both halves of the one-shot error take only multiples of 3, so the
      failure probability counts only those values. */
  lemma OneShotMultiples(q: int)
    ensures MultiplesOf(Dfm(q), 3) && MultiplesOf(Dgr(q), 3)
    ensures MultiplesOf(OneShot(q), 3)
  {
    ScaledIsScaling(IterLaw(TFm, Weight(q)), 3);
    ScalingMultiples(IterLaw(TFm, Weight(q)), 3, Dfm(q));
    TGrLaw();
    RunMultiples(TGr, Bits(Weight(q)), 3);
    ConvMultiples(Dfm(q), Dgr(q), 3);
  }

  // ---------------------------------------------------------------------
  // Support, symmetry and mass

  /** `f m` lies in [-3 |wt|, 3 |wt|] and is symmetric. */
  lemma DfmShape(q: int)
    ensures Bounded(Dfm(q), Abs(Weight(q)) * 3) && Symmetric(Dfm(q))
  {
    var I := IterLaw(TFm, Weight(q));
    TFmLaw();
    IterPreserves(TFm, Weight(q), 1);
    ScaledIsScaling(I, 3);
    ScalingBounded(I, 3, Dfm(q), Abs(Weight(q)) * 1);
    ScalingSymmetric(I, 3, Dfm(q));
  }

  /** `g r` lies in [-3 |wt|, 3 |wt|] and is symmetric. */
  lemma DgrShape(q: int)
    ensures Bounded(Dgr(q), Abs(Weight(q)) * 3) && Symmetric(Dgr(q))
  {
    TGrLaw();
    IterPreserves(TGr, Weight(q), 3);
  }

  /** The one-shot error lies in [-6 |wt|, 6 |wt|] and is symmetric. */
  lemma OneShotShape(q: int)
    ensures Bounded(OneShot(q), 6 * Abs(Weight(q))) && Symmetric(OneShot(q))
  {
    var b := Abs(Weight(q)) * 3;
    DfmShape(q);
    DgrShape(q);
    ConvBounded(Dfm(q), Dgr(q), b, b);
    ConvSymmetric(Dfm(q), Dgr(q));
  }

  /** Pruning only loses mass: the one-shot law is a sub-probability law.
      When neither iteration drops a key, `Dfm`, `Dgr` and the one-shot law
      are probability laws. */
  lemma OneShotMass(q: int)
    ensures NonNeg(OneShot(q)) && Mass(OneShot(q)) <= 1.0
    ensures Unpruned(TFm, Bits(Weight(q))) && Unpruned(TGr, Bits(Weight(q))) ==>
      Mass(Dfm(q)) == 1.0 && Mass(Dgr(q)) == 1.0 && Mass(OneShot(q)) == 1.0
  {
    var I := IterLaw(TFm, Weight(q));
    TFmLaw();
    TGrLaw();
    IterAtMostOne(TFm, Weight(q));
    IterAtMostOne(TGr, Weight(q));
    ScaledIsScaling(I, 3);
    ScalingMass(I, 3, Dfm(q));
    ScalingNonNeg(I, 3, Dfm(q));
    ConvAtMostOne(Dfm(q), Dgr(q));
    if Unpruned(TFm, Bits(Weight(q))) && Unpruned(TGr, Bits(Weight(q))) {
      IterMassOne(TFm, Weight(q));
      IterMassOne(TGr, Weight(q));
      ConvMassOne(Dfm(q), Dgr(q));
    }
  }

  // ---------------------------------------------------------------------
  // The failure probability

  lemma FailureNonNeg(q: int)
    ensures 0.0 <= FailureProbability(q)
  {
    OneShotMass(q);
    TailProbabilityNonNeg(OneShot(q), Threshold(q) as real);
  }

  /** A threshold at or above 6 |wt| is out of reach: the probability is 0. */
  lemma FailureBeyond(q: int)
    requires 6 * Abs(Weight(q)) <= Threshold(q)
    ensures FailureProbability(q) == 0.0
  {
    OneShotShape(q);
    TailProbabilityBeyond(OneShot(q), 6 * Abs(Weight(q)), Threshold(q) as real);
  }

  /** For 16 <= q < 48 the weight is at most 3 and the threshold at least 6,
      so decryption never fails. */
  lemma SmallModulusNeverFails(q: int)
    requires 16 <= q < 48
    ensures FailureProbability(q) == 0.0
  {
    FailureBeyond(q);
  }
}
