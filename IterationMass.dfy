/** Mass bounds for `iter_law_convolution`: pruning never adds mass, so the
    i-fold law has at most `Mass(A)^|i|`. */
module IterationMass {
  import opened Sums
  import opened Laws
  import opened RealPowers
  import opened Iteration

  lemma MassNonNeg(A: Law)
    requires NonNeg(A)
    ensures 0.0 <= Mass(A)
  {
    SumNonNeg(A.Keys, Density(A));
  }

  /** Convolving and pruning loses no sign and gains no mass. */
  lemma CleanConvMass(X: Law, Y: Law)
    requires NonNeg(X) && NonNeg(Y)
    ensures NonNeg(Clean(Conv(X, Y)))
    ensures Mass(Clean(Conv(X, Y))) <= Mass(X) * Mass(Y)
  {
    ConvNonNeg(X, Y);
    ConvMass(X, Y);
    CleanMass(Conv(X, Y));
    CleanPreserves(Conv(X, Y), 0);
  }

  /** Squaring keeps a mass bound `Mass(A)^v` as `Mass(A)^(v+v)`. */
  lemma SquareBound(D: Law, A: Law, C: Law, v: nat)
    requires NonNeg(D) && Mass(C) <= Mass(D) * Mass(D) && Mass(D) <= RPow(Mass(A), v)
    ensures Mass(C) <= RPow(Mass(A), v + v)
  {
    MassNonNeg(D);
    BoundSquare(Mass(C), Mass(D), Mass(A), v);
  }

  /** Scaling by `Mass(A)` turns a mass bound `Mass(A)^w` into `Mass(A)^(w+1)`. */
  lemma TimesBound(S: Law, A: Law, C: Law, w: nat)
    requires NonNeg(A) && Mass(C) <= Mass(S) * Mass(A) && Mass(S) <= RPow(Mass(A), w)
    ensures Mass(C) <= RPow(Mass(A), w + 1)
  {
    MassNonNeg(A);
    BoundTimes(Mass(C), Mass(S), Mass(A), w);
  }

  /** A '1' step keeps a law non-negative and turns a mass bound
      `Mass(A)^v` into `Mass(A)^(v+v+1)`. */
  lemma StepMassOne(D: Law, A: Law, ch: char, v: nat, w: nat)
    requires ch == '1' && w == v + v + 1
    requires NonNeg(D) && NonNeg(A) && Mass(D) <= RPow(Mass(A), v)
    ensures NonNeg(Step(D, A, ch)) && Mass(Step(D, A, ch)) <= RPow(Mass(A), w)
  {
    var S := Clean(Conv(D, D));
    var k: nat := v + v;
    CleanConvMass(D, D);
    SquareBound(D, A, S, v);
    CleanConvMass(S, A);
    TimesBound(S, A, Clean(Conv(S, A)), k);
    RPowIndex(Mass(A), w, k + 1);
    StepOne(D, A, ch);
  }

  /** Any other step keeps a law non-negative and turns a mass bound
      `Mass(A)^v` into `Mass(A)^(v+v)`. */
  lemma StepMassOther(D: Law, A: Law, ch: char, v: nat, w: nat)
    requires ch != '1' && w == v + v
    requires NonNeg(D) && Mass(D) <= RPow(Mass(A), v)
    ensures NonNeg(Step(D, A, ch)) && Mass(Step(D, A, ch)) <= RPow(Mass(A), w)
  {
    CleanConvMass(D, D);
    SquareBound(D, A, Clean(Conv(D, D)), v);
    RPowIndex(Mass(A), w, v + v);
    StepNotOne(D, A, ch);
  }

  /** A bound on a law carries over to an equal law. */
  lemma MassTransfer(X: Law, Y: Law, b: real)
    requires X == Y && NonNeg(Y) && Mass(Y) <= b
    ensures NonNeg(X) && Mass(X) <= b
  {
  }

  lemma RunMassSnoc(A: Law, p: string, c: char)
    requires NonNeg(A) && NonNeg(Run(A, p)) && Mass(Run(A, p)) <= RPow(Mass(A), Value(p))
    ensures NonNeg(Run(A, p + [c])) && Mass(Run(A, p + [c])) <= RPow(Mass(A), Value(p + [c]))
  {
    RunSnoc(A, p, c);
    ValueSnoc(p, c);
    if c == '1' {
      StepMassOne(Run(A, p), A, c, Value(p), Value(p + [c]));
    } else {
      StepMassOther(Run(A, p), A, c, Value(p), Value(p + [c]));
    }
    MassTransfer(Run(A, p + [c]), Step(Run(A, p), A, c), RPow(Mass(A), Value(p + [c])));
  }

  lemma {:induction false} RunMass(A: Law, s: string)
    requires NonNeg(A)
    ensures NonNeg(Run(A, s))
    ensures Mass(Run(A, s)) <= RPow(Mass(A), Value(s))
    decreases |s|
  {
    if s == [] {
      MassUnit();
    } else {
      var p, c := s[..|s| - 1], s[|s| - 1];
      assert s == p + [c];
      RunMass(A, p);
      RunMassSnoc(A, p, c);
    }
  }

  /** The pruned self-convolution never has more mass than `Mass(A)^|i|`. */
  lemma IterMass(A: Law, i: int)
    requires NonNeg(A)
    ensures NonNeg(IterLaw(A, i))
    ensures Mass(IterLaw(A, i)) <= RPow(Mass(A), Abs(i))
  {
    RunMass(A, Bits(i));
    BitsValue(i);
  }
}
