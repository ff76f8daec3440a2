/** `iter_law_convolution` without pruning is the plain convolution power. */
module IterationPower {
  import opened Sums
  import opened Laws
  import opened Algebra
  import opened RealPowers
  import opened Iteration
  import opened ConvPowers

  /** The loop with `clean_dist` left out. */
  ghost function PlainRun(A: Law, s: string): Law
  {
    if s == [] then Unit
    else
      var P := PlainRun(A, s[..|s| - 1]);
      if s[|s| - 1] == '1' then Conv(Conv(P, P), A) else Conv(P, P)
  }

  lemma PlainRunSnocOne(A: Law, s: string)
    ensures PlainRun(A, s + ['1']) == Conv(Conv(PlainRun(A, s), PlainRun(A, s)), A)
  {
    assert (s + ['1'])[..|s|] == s;
  }

  lemma PlainRunSnocOther(A: Law, s: string, c: char)
    requires c != '1'
    ensures PlainRun(A, s + [c]) == Conv(PlainRun(A, s), PlainRun(A, s))
  {
    assert (s + [c])[..|s|] == s;
  }

  /** `ConvPowerAdd` with the total count named. */
  lemma ConvPowerSum(A: Law, m: nat, n: nat, k: nat)
    requires k == m + n
    ensures Conv(ConvPower(A, m), ConvPower(A, n)) == ConvPower(A, k)
  {
    ConvPowerAdd(A, m, n);
  }

  /** Squaring the power `v` gives the power `k = v + v`. */
  lemma SquarePower(A: Law, v: nat, P: Law, k: nat)
    requires P == ConvPower(A, v) && k == v + v
    ensures Conv(P, P) == ConvPower(A, k)
  {
    ConvPowerSum(A, v, v, k);
  }

  /** Convolving the power `k` with `A` gives the power `w = k + 1`. */
  lemma TimesPower(A: Law, S: Law, k: nat, Q: Law, w: nat)
    requires S == ConvPower(A, k) && Q == Conv(S, A) && w == k + 1
    ensures Q == ConvPower(A, w)
  {
    ConvPowerNext(A, k);
    PowerIndex(A, w, k + 1);
  }

  /** A '1' step on the power `v` gives the power `v+v+1`. */
  lemma PowerStepOne(A: Law, P: Law, v: nat, Q: Law, w: nat)
    requires P == ConvPower(A, v) && Q == Conv(Conv(P, P), A) && w == v + v + 1
    ensures Q == ConvPower(A, w)
  {
    var k: nat := v + v;
    SquarePower(A, v, P, k);
    TimesPower(A, Conv(P, P), k, Q, w);
  }

  /** Any other step on the power `v` gives the power `v+v`. */
  lemma PowerStepOther(A: Law, P: Law, v: nat, Q: Law, w: nat)
    requires P == ConvPower(A, v) && Q == Conv(P, P) && w == v + v
    ensures Q == ConvPower(A, w)
  {
    SquarePower(A, v, P, w);
  }

  lemma PlainRunOne(A: Law, p: string)
    requires PlainRun(A, p) == ConvPower(A, Value(p))
    ensures PlainRun(A, p + ['1']) == ConvPower(A, Value(p + ['1']))
  {
    PlainRunSnocOne(A, p);
    ValueSnoc(p, '1');
    PowerStepOne(A, PlainRun(A, p), Value(p), PlainRun(A, p + ['1']), Value(p + ['1']));
  }

  lemma PlainRunNotOne(A: Law, p: string, c: char)
    requires c != '1' && PlainRun(A, p) == ConvPower(A, Value(p))
    ensures PlainRun(A, p + [c]) == ConvPower(A, Value(p + [c]))
  {
    PlainRunSnocOther(A, p, c);
    ValueSnoc(p, c);
    PowerStepOther(A, PlainRun(A, p), Value(p), PlainRun(A, p + [c]), Value(p + [c]));
  }

  lemma {:induction false} PlainRunPower(A: Law, s: string)
    ensures PlainRun(A, s) == ConvPower(A, Value(s))
    decreases |s|
  {
    if s != [] {
      var p, c := s[..|s| - 1], s[|s| - 1];
      assert s == p + [c];
      PlainRunPower(A, p);
      if c == '1' {
        PlainRunOne(A, p);
      } else {
        PlainRunNotOne(A, p, c);
      }
    }
  }

  /** Every entry exceeds the cutoff, so `clean_dist` keeps it. */
  ghost predicate Kept(X: Law)
  {
    forall x :: x in X ==> X[x] > Cutoff
  }

  /** No convolution along the unpruned run has an entry at or below the
      cutoff. */
  ghost predicate Unpruned(A: Law, s: string)
    decreases |s|
  {
    s == [] ||
    var P := PlainRun(A, s[..|s| - 1]);
    Unpruned(A, s[..|s| - 1]) && Kept(Conv(P, P)) && (s[|s| - 1] == '1' ==> Kept(Conv(Conv(P, P), A)))
  }

  lemma UnprunedSnoc(A: Law, s: string, c: char)
    requires Unpruned(A, s + [c])
    ensures Unpruned(A, s)
    ensures Kept(Conv(PlainRun(A, s), PlainRun(A, s)))
    ensures c == '1' ==> Kept(Conv(Conv(PlainRun(A, s), PlainRun(A, s)), A))
  {
    assert (s + [c])[..|s|] == s;
  }

  lemma KeptStep(D: Law, A: Law, c: char)
    requires Kept(Conv(D, D)) && (c == '1' ==> Kept(Conv(Conv(D, D), A)))
    ensures Step(D, A, c) == (if c == '1' then Conv(Conv(D, D), A) else Conv(D, D))
  {
    CleanIdentity(Conv(D, D));
    if c == '1' {
      CleanIdentity(Conv(Conv(D, D), A));
      StepOne(D, A, c);
    } else {
      StepNotOne(D, A, c);
    }
  }

  lemma {:induction false} RunUnpruned(A: Law, s: string)
    requires Unpruned(A, s)
    ensures Run(A, s) == PlainRun(A, s)
    decreases |s|
  {
    if s != [] {
      var p, c := s[..|s| - 1], s[|s| - 1];
      assert s == p + [c];
      UnprunedSnoc(A, p, c);
      RunUnpruned(A, p);
      KeptStep(PlainRun(A, p), A, c);
      RunSnoc(A, p, c);
      if c == '1' {
        PlainRunSnocOne(A, p);
      } else {
        PlainRunSnocOther(A, p, c);
      }
    }
  }

  /** When nothing is pruned, `iter_law_convolution(A, i)` is `A` convolved
      with itself `|i|` times. */
  lemma IterUnpruned(A: Law, i: int)
    requires Unpruned(A, Bits(i))
    ensures IterLaw(A, i) == ConvPower(A, Abs(i))
  {
    RunUnpruned(A, Bits(i));
    PlainRunPower(A, Bits(i));
    BitsValue(i);
  }
}
