/** Mass, sign, support and symmetry of the joint tables. */
module TableLaws {
  import opened Sums
  import opened Laws
  import opened Tables

  /** The loops add every product of four masses exactly once, so the mass
      of a table is the mass of all pairs (a1, a2) times that of all pairs
      (b1, b2). */
  lemma TableMassPairs(A: Law, B: Law, key: Quad -> int)
    ensures Mass(Table(A, B, key))
         == Sum(Pairs(A.Keys, A.Keys), PairWeight(A, A)) * Sum(Pairs(B.Keys, B.Keys), PairWeight(B, B))
  {
    AccumulateMass(Quads(A, B), key, QuadWeight(A, B));
    SumPairsProduct(Pairs(A.Keys, A.Keys), Pairs(B.Keys, B.Keys), PairWeight(A, A), PairWeight(B, B));
  }

  lemma SelfConvMass(A: Law)
    ensures Mass(Conv(A, A)) == Sum(Pairs(A.Keys, A.Keys), PairWeight(A, A))
  {
    AccumulateMass(Pairs(A.Keys, A.Keys), AddKey, PairWeight(A, A));
  }

  // The unit-mass case goes through the self-convolutions in small steps.

  lemma SelfConvUnit(A: Law)
    requires Mass(A) == 1.0
    ensures Mass(Conv(A, A)) == 1.0
  {
    ConvMass(A, A);
  }

  lemma TableUnitOfPairs(A: Law, B: Law, key: Quad -> int)
    requires Mass(Conv(A, A)) == 1.0 && Mass(Conv(B, B)) == 1.0
    ensures Mass(Table(A, B, key)) == 1.0
  {
    SelfConvMass(A);
    SelfConvMass(B);
    TableMassPairs(A, B, key);
  }

  /** Tables of two probability laws are probability laws. */
  lemma TableUnitMass(A: Law, B: Law, key: Quad -> int)
    requires Mass(A) == 1.0 && Mass(B) == 1.0
    ensures Mass(Table(A, B, key)) == 1.0
  {
    SelfConvUnit(A);
    SelfConvUnit(B);
    TableUnitOfPairs(A, B, key);
  }

  /** Nonnegative inputs give a nonnegative table. */
  lemma {:induction false} TableNonNeg(A: Law, B: Law, key: Quad -> int)
    requires NonNeg(A) && NonNeg(B)
    ensures NonNeg(Table(A, B, key))
  {
    PairWeightNonNeg(A, A);
    PairWeightNonNeg(B, B);
    forall e | e in Quads(A, B) ensures 0.0 <= QuadWeight(A, B)(e) {
      MulNonNeg(PairWeight(A, A)(e.0), PairWeight(B, B)(e.1));
    }
    AccumulateNonNeg(Quads(A, B), key, QuadWeight(A, B));
  }

  /** With values of `A` in [-m, m] and of `B` in [-k, k], `a1*a2 + b1*b2`
      lies in [-(m^2 + k^2), m^2 + k^2]. */
  lemma {:induction false} SquareTableBounded(A: Law, B: Law, m: int, k: int)
    requires Bounded(A, m) && Bounded(B, k)
    ensures Bounded(Table(A, B, SquareKey), m * m + k * k)
  {
    forall e | e in Quads(A, B) ensures -(m * m + k * k) <= SquareKey(e) <= m * m + k * k {
      QuadMember(A, B, e);
      MulBounds(e.0.0, e.0.1, m, m);
      MulBounds(e.1.0, e.1.1, k, k);
      AddBounds(e.0.0 * e.0.1, e.1.0 * e.1.1, m * m, k * k);
    }
    AccumulateBounded(Quads(A, B), SquareKey, QuadWeight(A, B), m * m + k * k);
  }

  /** With values of `A` in [-m, m] and of `B` in [-k, k],
      `a1*b1 + b2*(a1 + a2)` lies in [-3mk, 3mk]. */
  lemma {:induction false} CrossTableBounded(A: Law, B: Law, m: int, k: int)
    requires Bounded(A, m) && Bounded(B, k)
    ensures Bounded(Table(A, B, CrossKey), m * k + k * (m + m))
  {
    forall e | e in Quads(A, B) ensures -(m * k + k * (m + m)) <= CrossKey(e) <= m * k + k * (m + m) {
      QuadMember(A, B, e);
      MulBounds(e.0.0, e.1.0, m, k);
      AddBounds(e.0.0, e.0.1, m, m);
      MulBounds(e.1.1, e.0.0 + e.0.1, k, m + m);
      AddBounds(e.0.0 * e.1.0, e.1.1 * (e.0.0 + e.0.1), m * k, k * (m + m));
    }
    AccumulateBounded(Quads(A, B), CrossKey, QuadWeight(A, B), m * k + k * (m + m));
  }

  lemma GetSymmetric(A: Law, a: int)
    requires Symmetric(A)
    ensures Get(A, -a) == Get(A, a)
  {
    if -a in A {
      assert -(-a) == a;
    }
  }

  /** Negating `a1` and `b1`. */
  function FlipFirsts(e: Quad): Quad
  {
    ((-e.0.0, e.0.1), (-e.1.0, e.1.1))
  }

  /** Negating `a1` and `a2`. */
  function FlipAs(e: Quad): Quad
  {
    ((-e.0.0, -e.0.1), e.1)
  }

  lemma NegMul(x: int, y: int)
    ensures (-x) * y == -(x * y)
  {
  }

  lemma {:induction false} FlipFirstsStep(A: Law, B: Law, e: Quad)
    requires Symmetric(A) && Symmetric(B) && e in Quads(A, B)
    ensures FlipFirsts(e) in Quads(A, B) && FlipFirsts(FlipFirsts(e)) == e
    ensures SquareKey(FlipFirsts(e)) == -SquareKey(e)
    ensures QuadWeight(A, B)(FlipFirsts(e)) == QuadWeight(A, B)(e)
  {
    var f := FlipFirsts(e);
    QuadMember(A, B, e);
    QuadMember(A, B, f);
    NegMul(e.0.0, e.0.1);
    NegMul(e.1.0, e.1.1);
    GetSymmetric(A, e.0.0);
    GetSymmetric(B, e.1.0);
    MulEq(Get(A, -e.0.0), Get(A, e.0.0), Get(A, e.0.1), Get(A, e.0.1));
    MulEq(Get(B, -e.1.0), Get(B, e.1.0), Get(B, e.1.1), Get(B, e.1.1));
    MulEq(PairWeight(A, A)(f.0), PairWeight(A, A)(e.0), PairWeight(B, B)(f.1), PairWeight(B, B)(e.1));
  }

  lemma {:induction false} FlipAsStep(A: Law, B: Law, e: Quad)
    requires Symmetric(A) && e in Quads(A, B)
    ensures FlipAs(e) in Quads(A, B) && FlipAs(FlipAs(e)) == e
    ensures CrossKey(FlipAs(e)) == -CrossKey(e)
    ensures QuadWeight(A, B)(FlipAs(e)) == QuadWeight(A, B)(e)
  {
    var f := FlipAs(e);
    QuadMember(A, B, e);
    QuadMember(A, B, f);
    NegMul(e.0.0, e.1.0);
    assert -e.0.0 + -e.0.1 == -(e.0.0 + e.0.1);
    NegMul(e.0.0 + e.0.1, e.1.1);
    GetSymmetric(A, e.0.0);
    GetSymmetric(A, e.0.1);
    MulEq(Get(A, -e.0.0), Get(A, e.0.0), Get(A, -e.0.1), Get(A, e.0.1));
    MulEq(PairWeight(A, A)(f.0), PairWeight(A, A)(e.0), PairWeight(B, B)(f.1), PairWeight(B, B)(e.1));
  }

  /** For symmetric `A` and `B` the first table is symmetric. */
  lemma {:induction false} SquareTableSymmetric(A: Law, B: Law)
    requires Symmetric(A) && Symmetric(B)
    ensures Symmetric(Table(A, B, SquareKey))
  {
    var E, w := Quads(A, B), QuadWeight(A, B);
    assert NegatingInvolution(E, FlipFirsts, SquareKey, w) by {
      forall e | e in E
        ensures FlipFirsts(e) in E && FlipFirsts(FlipFirsts(e)) == e && SquareKey(FlipFirsts(e)) == -SquareKey(e)
        ensures w(FlipFirsts(e)) == w(e)
      {
        FlipFirstsStep(A, B, e);
      }
    }
    AccumulateSymmetric(E, FlipFirsts, SquareKey, w);
  }

  /** For symmetric `A` the second table is symmetric, whatever `B` is. */
  lemma {:induction false} CrossTableSymmetric(A: Law, B: Law)
    requires Symmetric(A)
    ensures Symmetric(Table(A, B, CrossKey))
  {
    var E, w := Quads(A, B), QuadWeight(A, B);
    assert NegatingInvolution(E, FlipAs, CrossKey, w) by {
      forall e | e in E
        ensures FlipAs(e) in E && FlipAs(FlipAs(e)) == e && CrossKey(FlipAs(e)) == -CrossKey(e)
        ensures w(FlipAs(e)) == w(e)
      {
        FlipAsStep(A, B, e);
      }
    }
    AccumulateSymmetric(E, FlipAs, CrossKey, w);
  }
}
