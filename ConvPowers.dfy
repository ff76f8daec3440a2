/** The n-fold convolution power of a law, its additivity in `n` and its mass. */
module ConvPowers {
  import opened Laws
  import opened Algebra
  import opened RealPowers

  /** `A` convolved with itself `n` times. */
  ghost function ConvPower(A: Law, n: nat): Law
  {
    if n == 0 then Unit else Conv(ConvPower(A, n - 1), A)
  }

  /** Equal counts give equal powers: stated once so that proofs need not
      rediscover it through the arithmetic of the counts. */
  lemma PowerIndex(A: Law, n: nat, k: nat)
    requires n == k
    ensures ConvPower(A, n) == ConvPower(A, k)
  {
  }

  lemma ConvPowerNext(A: Law, n: nat)
    ensures ConvPower(A, n + 1) == Conv(ConvPower(A, n), A)
  {
  }

  lemma ConvPowerZero(A: Law, m: nat)
    ensures Conv(ConvPower(A, m), ConvPower(A, 0)) == ConvPower(A, m)
  {
    ConvUnitRight(ConvPower(A, m));
  }

  lemma AssocStep(P: Law, Q: Law, A: Law, R: Law)
    requires Conv(P, Q) == R
    ensures Conv(P, Conv(Q, A)) == Conv(R, A)
  {
    ConvAssoc(P, Q, A);
  }

  lemma ConvPowerAddNext(A: Law, m: nat, k: nat)
    requires Conv(ConvPower(A, m), ConvPower(A, k)) == ConvPower(A, m + k)
    ensures Conv(ConvPower(A, m), ConvPower(A, k + 1)) == ConvPower(A, m + k + 1)
  {
    AssocStep(ConvPower(A, m), ConvPower(A, k), A, ConvPower(A, m + k));
    ConvPowerNext(A, k);
    ConvPowerNext(A, m + k);
  }

  lemma ConvPowerAddZero(A: Law, m: nat, n: nat)
    requires n == 0
    ensures Conv(ConvPower(A, m), ConvPower(A, n)) == ConvPower(A, m + n)
  {
    ConvPowerZero(A, m);
    PowerIndex(A, n, 0);
    PowerIndex(A, m + n, m);
  }

  lemma ConvPowerAddStep(A: Law, m: nat, n: nat, k: nat)
    requires n == k + 1 && Conv(ConvPower(A, m), ConvPower(A, k)) == ConvPower(A, m + k)
    ensures Conv(ConvPower(A, m), ConvPower(A, n)) == ConvPower(A, m + n)
  {
    ConvPowerAddNext(A, m, k);
    PowerIndex(A, n, k + 1);
    PowerIndex(A, m + n, m + k + 1);
  }

  lemma {:induction false} ConvPowerAdd(A: Law, m: nat, n: nat)
    ensures Conv(ConvPower(A, m), ConvPower(A, n)) == ConvPower(A, m + n)
    decreases n
  {
    if n == 0 {
      ConvPowerAddZero(A, m, n);
    } else {
      var k: nat := n - 1;
      ConvPowerAdd(A, m, k);
      ConvPowerAddStep(A, m, n, k);
    }
  }

  /** Convolving once more with `A` multiplies the mass by `Mass(A)`. */
  lemma MassStep(A: Law, X: Law, Y: Law, k: nat)
    requires Y == Conv(X, A) && Mass(X) == RPow(Mass(A), k)
    ensures Mass(Y) == RPow(Mass(A), k + 1)
  {
    ConvMass(X, A);
    PowTimes(Mass(X), Mass(A), k);
  }

  /** The n-fold convolution has mass `Mass(A)^n`. */
  lemma {:induction false} ConvPowerMass(A: Law, n: nat)
    ensures Mass(ConvPower(A, n)) == RPow(Mass(A), n)
  {
    if n == 0 {
      MassUnit();
    } else {
      var k: nat := n - 1;
      ConvPowerMass(A, k);
      ConvPowerNext(A, k);
      MassStep(A, ConvPower(A, k), ConvPower(A, k + 1), k);
      PowerIndex(A, n, k + 1);
    }
  }
}
