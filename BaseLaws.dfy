/** The base distributions of the engine: centered binomial, uniform and
    sparse ternary laws. */
module BaseLaws {
  import opened Sums
  import opened Laws
  import opened Combinatorics
  import opened Outcomes

  /** `2. ** e` for an integer exponent. */
  function Pow2Real(e: int): (r: real)
    ensures r > 0.0
    ensures e >= 0 ==> r == Pow2(e) as real
  {
    if e >= 0 then Pow2(e) as real else 1.0 / Pow2(-e) as real
  }

  /** `centered_binomial_pdf(k, x)`: `binomial(2k, x + k) / 2^(2k)`. */
  function Pdf(k: int, x: int): real
  {
    Binomial(2 * k, x + k) as real / Pow2Real(2 * k)
  }

  /** The table `build_centered_binomial_law(k)` produces: `x -> Pdf(k, x)` for
      x in -k..k (empty when k < 0). */
  function Cbd(k: int): Law
  {
    map x | -k <= x <= k :: Pdf(k, x)
  }

  /** `build_centered_binomial_law`: fill the table for x = -k, ..., k. */
  method BuildCenteredBinomialLaw(k: int) returns (D: Law)
    ensures D == Cbd(k)
  {
    D := map[];
    var i := -k;
    while i < k + 1
      invariant -k <= i && (i <= k + 1 || i == -k)
      invariant D == map x | -k <= x < i :: Pdf(k, x)
      decreases k + 1 - i
    {
      D := D[i := Pdf(k, i)];
      i := i + 1;
    }
    forall x ensures x in D <==> x in Cbd(k) {
    }
  }

  /** The mass at x is C(2k, x + k) / 2^(2k). */
  lemma {:induction false} PdfIsChoose(k: int, x: int)
    requires -k <= x <= k
    ensures Pdf(k, x) == Choose(2 * k, x + k) as real / Pow2(2 * k) as real
  {
    BinomialIsChoose(2 * k, x + k);
  }

  lemma {:induction false} CbdPositive(k: int)
    ensures forall x :: x in Cbd(k) ==> Cbd(k)[x] > 0.0
    ensures Bounded(Cbd(k), k) && NonNeg(Cbd(k))
  {
    forall x | x in Cbd(k) ensures Cbd(k)[x] > 0.0 {
      PdfIsChoose(k, x);
      ChoosePositive(2 * k, x + k);
    }
  }

  /** The centered binomial law is symmetric: law[x] = law[-x]. */
  lemma {:induction false} CbdSymmetric(k: int)
    ensures Symmetric(Cbd(k))
  {
    forall x | x in Cbd(k) ensures -x in Cbd(k) && Cbd(k)[-x] == Cbd(k)[x] {
      PdfIsChoose(k, x);
      PdfIsChoose(k, -x);
      ChooseSymmetric(2 * k, x + k);
      assert 2 * k - (x + k) == -x + k;
    }
  }

  /** The row of Pascal's triangle scaled by `1 / P`, indexed from 0. */
  ghost function ScaledRow(n: nat, P: real): int -> real
    requires P != 0.0
  {
    j => if j >= 0 then Choose(n, j) as real / P else 0.0
  }

  lemma DivAdd(a: real, b: real, P: real)
    requires P != 0.0
    ensures (a + b) / P == a / P + b / P
  {
  }

  lemma {:induction false} ScaledRowSum(n: nat, m: nat, P: real)
    requires P != 0.0
    ensures RangeSum(0, m, ScaledRow(n, P)) == ChooseSum(n, m) as real / P
  {
    if m > 0 {
      ScaledRowSum(n, m - 1, P);
      RangeSumLast(0, m - 1, ScaledRow(n, P));
      DivAdd(ChooseSum(n, m - 1) as real, Choose(n, m - 1) as real, P);
    }
  }

  lemma {:induction false} CbdKeys(k: int)
    requires k >= 0
    ensures Cbd(k).Keys == IntRange(-k, k + 1)
  {
    IntRangeMember(-k, k + 1);
    forall x ensures x in Cbd(k).Keys <==> x in IntRange(-k, k + 1) {
    }
  }

  lemma {:induction false} CbdShift(k: int)
    requires k >= 0
    ensures RangeSum(-k, k + 1, Density(Cbd(k))) == RangeSum(0, 2 * k + 1, ScaledRow(2 * k, Pow2(2 * k) as real))
  {
    var P := Pow2(2 * k) as real;
    var f := Density(Cbd(k));
    forall j | 0 <= j < 2 * k + 1 ensures ScaledRow(2 * k, P)(j) == f(j + -k) {
      PdfIsChoose(k, j - k);
    }
    RangeSumShift(0, 2 * k + 1, -k, f, ScaledRow(2 * k, P));
  }

  lemma SelfDiv(x: real)
    requires x != 0.0
    ensures x / x == 1.0
  {
  }

  /** The masses of the centered binomial law sum to 1. */
  lemma {:induction false} CbdMass(k: int)
    requires k >= 0
    ensures Mass(Cbd(k)) == 1.0
  {
    var P := Pow2(2 * k) as real;
    assert Mass(Cbd(k)) == RangeSum(-k, k + 1, Density(Cbd(k))) by {
      CbdKeys(k);
      SumIntRange(-k, k + 1, Density(Cbd(k)));
    }
    CbdShift(k);
    assert RangeSum(0, 2 * k + 1, ScaledRow(2 * k, P)) == 1.0 by {
      ScaledRowSum(2 * k, 2 * k + 1, P);
      ChooseRow(2 * k);
      SelfDiv(P);
    }
  }

  /** For k = 1 (the psi law of the 3n schemes): {-1: 1/4, 0: 1/2, 1: 1/4}. */
  lemma CbdOne()
    ensures Cbd(1) == map[-1 := 0.25, 0 := 0.5, 1 := 0.25]
  {
    var M := map[-1 := 0.25, 0 := 0.5, 1 := 0.25];
    forall x ensures x in Cbd(1) <==> x in M {
    }
    forall x ensures Get(Cbd(1), x) == Get(M, x) {
      if -1 <= x <= 1 {
        BinomialIsChoose(2, x + 1);
      }
    }
    LawExt(Cbd(1), M);
  }

  /** For k = 2: {±2: 1/16, ±1: 4/16, 0: 6/16}. */
  lemma CbdTwo()
    ensures Cbd(2) == map[-2 := 0.0625, -1 := 0.25, 0 := 0.375, 1 := 0.25, 2 := 0.0625]
  {
    var M := map[-2 := 0.0625, -1 := 0.25, 0 := 0.375, 1 := 0.25, 2 := 0.0625];
    forall x ensures x in Cbd(2) <==> x in M {
    }
    forall x ensures Get(Cbd(2), x) == Get(M, x) {
      if -2 <= x <= 2 {
        CbdTwoAt(x);
      }
    }
    LawExt(Cbd(2), M);
  }

  lemma CbdTwoAt(x: int)
    requires -2 <= x <= 2
    ensures Pdf(2, x) == [0.0625, 0.25, 0.375, 0.25, 0.0625][x + 2]
  {
    assert Pow2Real(4) == 16.0;
    if x == -2 || x == 2 {
      assert Binomial(4, x + 2) == 1;
    } else if x == -1 || x == 1 {
      assert Binomial(4, x + 2) == 4;
    } else {
      assert Binomial(4, 2) == 6;
    }
  }

  /** `build_uniform_law(B)`: mass 1/(2B+1) on each of -B..B. */
  function Uniform(B: int): Law
  {
    map x | -B <= x <= B :: UniformPmf(B, x)
  }

  /** The mass `1.0 / size` the comprehension gives every x of -B..B. */
  function UniformPmf(B: int, x: int): real
  {
    1.0 / (2 * B + 1) as real
  }

  lemma MulInverse(n: real)
    requires n != 0.0
    ensures n * (1.0 / n) == 1.0
  {
  }

  lemma {:induction false} UniformKeys(B: int)
    ensures Uniform(B).Keys == IntRange(-B, B + 1)
  {
    IntRangeMember(-B, B + 1);
    forall x ensures x in Uniform(B).Keys <==> x in IntRange(-B, B + 1) {
    }
  }

  lemma UnitFraction(n: int, c: int, p: real)
    requires n >= 1 && c == n && p == 1.0 / n as real
    ensures c as real * p == 1.0
  {
    MulInverse(n as real);
  }

  lemma {:induction false} UniformMass(B: int)
    requires B >= 0
    ensures Mass(Uniform(B)) == 1.0
  {
    var U := Uniform(B);
    var p := 1.0 / (2 * B + 1) as real;
    assert Mass(U) == |U.Keys| as real * p by {
      forall x | x in U.Keys ensures Density(U)(x) == p {
      }
      SumConst(U.Keys, Density(U), p);
    }
    assert |U.Keys| == 2 * B + 1 by {
      UniformKeys(B);
      IntRangeSize(-B, B + 1);
    }
    UnitFraction(2 * B + 1, |U.Keys|, p);
  }

  /** The uniform law on -B..B sums to 1 and is symmetric. */
  lemma {:induction false} UniformLaw(B: int)
    requires B >= 0
    ensures Mass(Uniform(B)) == 1.0
    ensures Symmetric(Uniform(B)) && NonNeg(Uniform(B)) && Bounded(Uniform(B), B)
  {
    UniformMass(B);
  }

  /** `build_sparse_ternary_law(p)`: `assert 0 <= p <= 0.5`, then
      {-1: p, 0: 1 - 2p, 1: p}. */
  function SparseTernary(p: real): Result<Law>
  {
    if 0.0 <= p <= 0.5 then Ok(map[-1 := p, 0 := 1.0 - 2.0 * p, 1 := p])
    else Err(AssertionFailed)
  }

  lemma {:induction false} SumOfThree(f: int -> real)
    ensures Sum({-1, 0, 1}, f) == f(-1) + f(0) + f(1)
  {
    assert {-1, 0, 1} == {-1, 0} + {1};
    assert {-1, 0} == {-1} + {0};
    SumInsert({-1, 0}, f, 1);
    SumInsert({-1}, f, 0);
    SumSingleton(-1, f);
  }

  /** The sparse ternary law exists exactly for 0 <= p <= 1/2, and it is then a
      symmetric probability law on {-1, 0, 1}. */
  lemma {:induction false} SparseTernaryLaw(p: real)
    ensures SparseTernary(p).Ok? <==> 0.0 <= p <= 0.5
    ensures SparseTernary(p).Ok? ==>
      var T := SparseTernary(p).value;
      Mass(T) == 1.0 && NonNeg(T) && Symmetric(T) && Bounded(T, 1)
  {
    if 0.0 <= p <= 0.5 {
      var T := SparseTernary(p).value;
      assert T.Keys == {-1, 0, 1};
      SumOfThree(Density(T));
    }
  }

  /** Python's `round` on the exact rational: nearest integer, ties to even. */
  function RoundHalfEven(r: real): (n: int)
    ensures -0.5 <= r - n as real <= 0.5
    ensures (r - n as real == 0.5 || r - n as real == -0.5) ==> n % 2 == 0
  {
    var f := r.Floor;
    var d := r - f as real;
    if d < 0.5 then f
    else if d > 0.5 then f + 1
    else if f % 2 == 0 then f
    else f + 1
  }

  /** A multiple of `m` leaves remainder 0. */
  lemma ModMultiple(k: int, m: int)
    requires m != 0
    ensures (k * m) % m == 0
  {
    var q, r := (k * m) / m, (k * m) % m;
    assert k * m == q * m + r && 0 <= r < if m > 0 then m else -m;
    assert (k - q) * m == r;
    if k - q >= 1 || k - q <= -1 {
      assert false;
    }
  }

  lemma {:induction false} PyModCongruent(a: int, m: int)
    requires m != 0
    ensures (a - a % m) % m == 0
    ensures (a - (a % m + m)) % m == 0
  {
    assert a - a % m == (a / m) * m;
    ModMultiple(a / m, m);
    assert a - (a % m + m) == (a / m - 1) * m;
    ModMultiple(a / m - 1, m);
  }

  /** Python's `a % m`: the remainder takes the sign of `m`. */
  function PyMod(a: int, m: int): (r: int)
    requires m != 0
    ensures m > 0 ==> 0 <= r < m
    ensures m < 0 ==> m < r <= 0
    ensures (a - r) % m == 0
  {
    PyModCongruent(a, m);
    var r0 := a % m;
    if m < 0 && r0 != 0 then r0 + m else r0
  }

  /** `mod_switch(x, q, rq)` once both moduli are known to be non-zero:
      `round(rq * x / q) % rq`. */
  function Switch(x: int, q: int, rq: int): int
    requires q != 0 && rq != 0
  {
    PyMod(RoundHalfEven((rq * x) as real / q as real), rq)
  }

  /** `mod_switch(x, q, rq)`: division by `q` and reduction modulo `rq` raise
      `ZeroDivisionError` when the modulus is 0. */
  function ModSwitch(x: int, q: int, rq: int): (r: Result<int>)
    ensures r.Ok? <==> q != 0 && rq != 0
    ensures r.Ok? && rq > 0 ==> 0 <= r.value < rq
  {
    if q == 0 || rq == 0 then Err(DivisionByZero) else Ok(Switch(x, q, rq))
  }

  /** `mod_centered(x, q)` for `q != 0`: `a = x % q`, and `a - q` unless `a < q / 2`. */
  function Centered(x: int, q: int): int
    requires q != 0
  {
    var a := PyMod(x, q);
    if 2 * a < q then a else a - q
  }

  function ModCentered(x: int, q: int): (r: Result<int>)
    ensures r.Ok? <==> q != 0
  {
    if q == 0 then Err(DivisionByZero) else Ok(Centered(x, q))
  }

  /** For q > 0 the centered representative is congruent to x and lies in
      [-q/2, q/2). */
  lemma CenteredRange(x: int, q: int)
    requires q > 0
    ensures -q <= 2 * Centered(x, q) < q
    ensures (x - Centered(x, q)) % q == 0
  {
    var a := PyMod(x, q);
    if 2 * a >= q {
      var k := (x - a) / q;
      assert x - a == k * q;
      assert x - (a - q) == (k + 1) * q;
      ModMultiple(k + 1, q);
    }
  }

  /** For even q, q/2 is represented by -q/2: the range is [-q/2, q/2), not
      the (-q/2, q/2] the comment gives. */
  lemma CenteredHalf(q: int)
    requires q > 0 && q % 2 == 0
    ensures Centered(q / 2, q) == -(q / 2)
  {
  }

  /** The error `build_mod_switching_error_law` records for x: switch x to
      `rq`, back to `q`, and centre the difference modulo `q`. */
  function MsError(q: int, rq: int, x: int): int
    requires q != 0 && rq != 0
  {
    Centered(x - Switch(Switch(x, q, rq), rq, q), q)
  }

  ghost function MsKey(q: int, rq: int): int -> int
    requires q != 0 && rq != 0
  {
    x => MsError(q, rq, x)
  }

  ghost function MsWeight(q: int): int -> real
    requires q != 0
  {
    x => 1.0 / q as real
  }

  /** The law `build_mod_switching_error_law(q, rq)` returns: 1/q added at
      `MsError(q, rq, x)` for x = 0, ..., q - 1. `range(q)` is empty for
      q <= 0; for q > 0 and rq = 0 the first `mod_switch` divides by zero. */
  ghost function MsLaw(q: int, rq: int): Result<Law>
  {
    if q <= 0 then Ok(map[])
    else if rq == 0 then Err(DivisionByZero)
    else Ok(Accumulate(IntRange(0, q), MsKey(q, rq), MsWeight(q)))
  }

  /** `build_mod_switching_error_law`. */
  method BuildModSwitchingErrorLaw(q: int, rq: int) returns (r: Result<Law>)
    ensures r == MsLaw(q, rq)
  {
    var D: Law := map[];
    var x := 0;
    if q > 0 && rq != 0 {
      AccumulateEmpty(MsKey(q, rq), MsWeight(q));
      assert IntRange(0, 0) == {};
    }
    while x < q
      invariant 0 <= x && (x <= q || x == 0)
      invariant rq == 0 ==> x == 0
      invariant q <= 0 ==> D == map[]
      invariant q > 0 && rq != 0 ==> D == Accumulate(IntRange(0, x), MsKey(q, rq), MsWeight(q))
      decreases q - x
    {
      var y :- ModSwitch(x, q, rq);
      // Once the first switch succeeded neither divisor is zero, so the
      // second `mod_switch` and the `mod_centered` cannot fail.
      var z := Switch(y, rq, q);
      var d := Centered(x - z, q);
      assert d == MsKey(q, rq)(x);
      IntRangeSnoc(0, x);
      FillStep(D, IntRange(0, x), MsKey(q, rq), MsWeight(q), x, 1.0 / q as real);
      D := Add(D, d, 1.0 / q as real);
      x := x + 1;
    }
    return Ok(D);
  }

  lemma {:induction false} MsWeightSum(q: int)
    requires q > 0
    ensures Sum(IntRange(0, q), MsWeight(q)) == 1.0
  {
    var E, w, p := IntRange(0, q), MsWeight(q), 1.0 / q as real;
    assert forall x :: x in E ==> w(x) == p;
    SumConst(E, w, p);
    IntRangeSize(0, q);
    UnitFraction(q, |E|, p);
  }

  lemma {:induction false} MsAccumulateMass(q: int, rq: int)
    requires q > 0 && rq != 0
    ensures Mass(Accumulate(IntRange(0, q), MsKey(q, rq), MsWeight(q))) == 1.0
  {
    AccumulateMass(IntRange(0, q), MsKey(q, rq), MsWeight(q));
    MsWeightSum(q);
  }

  lemma {:induction false} MsAccumulateKeys(q: int, rq: int)
    requires q > 0 && rq != 0
    ensures forall d :: d in Accumulate(IntRange(0, q), MsKey(q, rq), MsWeight(q)) ==> -q <= 2 * d < q
  {
    var E, key, w := IntRange(0, q), MsKey(q, rq), MsWeight(q);
    var S := set d | -q <= d < q && -q <= 2 * d < q;
    forall x | x in E ensures key(x) in S {
      CenteredRange(x - Switch(Switch(x, q, rq), rq, q), q);
    }
    AccumulateKeysIn(E, key, w, S);
  }

  lemma {:induction false} MsAccumulateNonNeg(q: int, rq: int)
    requires q > 0 && rq != 0
    ensures NonNeg(Accumulate(IntRange(0, q), MsKey(q, rq), MsWeight(q)))
  {
    var w := MsWeight(q);
    forall e | e in IntRange(0, q) ensures 0.0 <= w(e) {
      assert w(e) == 1.0 / q as real;
    }
    AccumulateNonNeg(IntRange(0, q), MsKey(q, rq), w);
  }

  /** For q > 0 the error law exists exactly when rq != 0; it then has total
      mass 1 (q contributions of 1/q) and every key lies in the range of
      `mod_centered`. */
  lemma {:induction false} MsLawMass(q: int, rq: int)
    requires q > 0
    ensures MsLaw(q, rq).Ok? <==> rq != 0
    ensures MsLaw(q, rq).Ok? ==>
      var L := MsLaw(q, rq).value;
      Mass(L) == 1.0 && NonNeg(L) && forall d :: d in L ==> -q <= 2 * d < q
  {
    if rq != 0 {
      MsAccumulateMass(q, rq);
      MsAccumulateKeys(q, rq);
      MsAccumulateNonNeg(q, rq);
    }
  }

  /** Rounding returns the unique integer closer than 1/2. */
  lemma RoundUnique(r: real, n: int)
    requires -0.5 < r - n as real < 0.5
    ensures RoundHalfEven(r) == n
  {
  }

  lemma PyModSmall(a: int, m: int)
    requires 0 <= a < m
    ensures PyMod(a, m) == a
  {
  }

  lemma DivBounds(a: real, b: real, lo: real, hi: real)
    requires b > 0.0 && lo * b <= a <= hi * b
    ensures lo <= a / b <= hi
  {
  }

  lemma CastMul(a: int, b: int)
    ensures (a * b) as real == a as real * b as real
  {
  }

  lemma MulMonotone(a: int, b: int, c: int)
    requires a >= 0 && b <= c
    ensures a * b <= a * c
  {
    assert a * c - a * b == a * (c - b);
  }

  /** The forward switch of `x` in [0, q) to a modulus `rq >= q` is the
      rounding of `rq * x / q`, which lies in [0, rq - 1]. */
  lemma {:induction false} ForwardRange(q: int, rq: int, x: int)
    requires 0 <= x < q <= rq
    ensures 0.0 <= (rq * x) as real / q as real <= (rq - 1) as real
  {
    MulMonotone(rq, x, q - 1);
    MulMonotone(rq, 0, x);
    assert rq * (q - 1) <= (rq - 1) * q;
    CastMul(rq - 1, q);
    DivBounds((rq * x) as real, q as real, 0.0, (rq - 1) as real);
  }

  lemma BackShift(qr: real, rqr: real, xr: real, yr: real, r1: real)
    requires qr > 0.0 && rqr > 0.0 && r1 * qr == rqr * xr
    ensures qr * yr / rqr - xr == qr * (yr - r1) / rqr
  {
    assert xr == rqr * xr / rqr;
    assert qr * yr - rqr * xr == qr * (yr - r1);
  }

  lemma BackError(qr: real, rqr: real, e: real)
    requires 0.0 < qr < rqr && -0.5 <= e <= 0.5
    ensures -0.5 < qr * e / rqr < 0.5
  {
    assert -0.5 * qr <= qr * e <= 0.5 * qr;
    DivBounds(qr * e, rqr, -0.5 * qr / rqr, 0.5 * qr / rqr);
    assert 0.5 * qr / rqr < 0.5;
  }

  /** The forward switch of `x` in [0, q) to `rq >= q`: the rounding of
      `rq * x / q`, already reduced. */
  lemma {:induction false} ForwardSwitch(q: int, rq: int, x: int)
    requires 0 <= x < q <= rq
    ensures Switch(x, q, rq) == RoundHalfEven((rq * x) as real / q as real)
  {
    ForwardRange(q, rq, x);
    PyModSmall(RoundHalfEven((rq * x) as real / q as real), rq);
  }

  lemma {:induction false} BackRoundSame(q: int, x: int, y: int)
    requires q > 0
    requires y == RoundHalfEven((q * x) as real / q as real)
    ensures RoundHalfEven((q * y) as real / q as real) == x
  {
    CastMul(q, x);
    CancelReal(q as real, x as real);
    RoundUnique((q * x) as real / q as real, x);
    CastMul(q, y);
    CancelReal(q as real, y as real);
    RoundUnique((q * y) as real / q as real, y);
  }

  lemma DivTimes(a: real, b: real)
    requires b > 0.0
    ensures (a / b) * b == a
  {
  }

  lemma CancelReal(b: real, a: real)
    requires b > 0.0
    ensures (b * a) / b == a
  {
  }

  lemma BackNear(qr: real, rqr: real, xr: real, yr: real, r1: real, r2: real)
    requires 0.0 < qr < rqr && r1 * qr == rqr * xr && -0.5 <= r1 - yr <= 0.5
    requires r2 == qr * yr / rqr
    ensures -0.5 < r2 - xr < 0.5
  {
    var e := yr - r1;
    BackShift(qr, rqr, xr, yr, r1);
    assert r2 - xr == qr * e / rqr;
    BackError(qr, rqr, e);
  }

  lemma {:induction false} BackRoundUp(q: int, rq: int, x: int, y: int)
    requires 0 < q < rq
    requires y == RoundHalfEven((rq * x) as real / q as real)
    ensures RoundHalfEven((q * y) as real / rq as real) == x
  {
    var r1 := (rq * x) as real / q as real;
    var r2 := (q * y) as real / rq as real;
    assert r1 * q as real == rq as real * x as real by {
      CastMul(rq, x);
      DivTimes((rq * x) as real, q as real);
    }
    assert r2 == q as real * y as real / rq as real by { CastMul(q, y); }
    BackNear(q as real, rq as real, x as real, y as real, r1, r2);
    RoundUnique(r2, x);
  }

  /** Switching `x` in [0, q) up to `rq >= q` and back returns `x`. */
  lemma {:induction false} RoundTrip(q: int, rq: int, x: int)
    requires 0 <= x < q <= rq
    ensures Switch(Switch(x, q, rq), rq, q) == x
  {
    var y := Switch(x, q, rq);
    ForwardSwitch(q, rq, x);
    if q == rq {
      BackRoundSame(q, x, y);
    } else {
      BackRoundUp(q, rq, x, y);
    }
    PyModSmall(x, q);
  }

  /** With `rq >= q` the switching error is always 0, so the law is {0: 1}:
      no rounding noise without compression. */
  lemma {:induction false} MsLawExact(q: int, rq: int)
    requires 0 < q <= rq
    ensures MsLaw(q, rq) == Ok(Unit)
  {
    var E, key, w := IntRange(0, q), MsKey(q, rq), MsWeight(q);
    IntRangeMember(0, q);
    forall x | x in E ensures key(x) == 0 {
      RoundTrip(q, rq, x);
      PyModSmall(0, q);
    }
    assert 0 in E;
    AccumulateConstKey(E, key, w, 0);
    MsWeightSum(q);
  }

  /** The four switching errors for q = 4, rq = 2: x = 1 rounds 0.5 down to
      the even 0 and x = 3 rounds 1.5 up to 2, which wraps to 0. */
  lemma ExampleErrorZero()
    ensures MsError(4, 2, 0) == 0
  {
    MsErrorAt(0, 0.0, 0, 0.0, 0);
  }

  lemma ExampleErrorOne()
    ensures MsError(4, 2, 1) == 1
  {
    MsErrorAt(1, 0.5, 0, 0.0, 0);
  }

  lemma ExampleErrorTwo()
    ensures MsError(4, 2, 2) == 0
  {
    MsErrorAt(2, 1.0, 1, 2.0, 2);
  }

  lemma ExampleErrorThree()
    ensures MsError(4, 2, 3) == -1
  {
    MsErrorAt(3, 1.5, 0, 0.0, 0);
  }

  /** One switching error for q = 4, rq = 2, from the two rounded values:
      `2x/4` rounds to `y`, and `4y/2` to `z`. */
  lemma MsErrorAt(x: int, r: real, y: int, s: real, z: int)
    requires 0 <= x < 4 && 0 <= y < 2 && 0 <= z < 4
    requires r == (2 * x) as real / 4.0 && RoundHalfEven(r) % 2 == y
    requires s == (4 * y) as real / 2.0 && RoundHalfEven(s) == z
    ensures MsError(4, 2, x) == Centered(x - z, 4)
  {
    assert Switch(x, 4, 2) == y;
    PyModSmall(z, 4);
    assert Switch(y, 2, 4) == z;
  }

  /** One step of the worked example: adding x's 1/q at its error `d`. */
  lemma {:induction false} MsExampleStep(x: int, d: int, C: Law, C': Law)
    requires 0 <= x < 4 && MsError(4, 2, x) == d
    requires C == Accumulate(IntRange(0, x), MsKey(4, 2), MsWeight(4))
    requires C' == C[d := Get(C, d) + 0.25]
    ensures C' == Accumulate(IntRange(0, x + 1), MsKey(4, 2), MsWeight(4))
  {
    assert C' == Add(C, MsKey(4, 2)(x), 0.25);
    IntRangeSnoc(0, x);
    FillStep(C, IntRange(0, x), MsKey(4, 2), MsWeight(4), x, 0.25);
  }

  /** The worked example: q = 4, rq = 2 gives {0: 1/2, 1: 1/4, -1: 1/4}. */
  lemma {:induction false} MsLawExample(q: int, rq: int)
    requires q == 4 && rq == 2
    ensures MsLaw(q, rq) == Ok(map[0 := 0.5, 1 := 0.25, -1 := 0.25])
  {
    ExampleAccFour();
    ExampleMap(ExampleAcc(4));
  }

  /** The dictionary of the worked example after the first k additions. */
  ghost function ExampleAcc(k: int): Law
  {
    Accumulate(IntRange(0, k), MsKey(4, 2), MsWeight(4))
  }

  lemma ExampleAccOne()
    ensures ExampleAcc(1) == map[0 := 0.25]
  {
    var C0: Law := map[];
    AccumulateEmpty(MsKey(4, 2), MsWeight(4));
    assert IntRange(0, 0) == {};
    ExampleErrorZero();
    assert Get(C0, 0) == 0.0;
    MsExampleStep(0, 0, C0, map[0 := 0.25]);
  }

  lemma ExampleAccTwo()
    ensures ExampleAcc(2) == map[0 := 0.25][1 := 0.25]
  {
    var C := map[0 := 0.25];
    ExampleAccOne();
    ExampleErrorOne();
    assert Get(C, 1) == 0.0;
    MsExampleStep(1, 1, C, C[1 := 0.25]);
  }

  lemma ExampleAccThree()
    ensures ExampleAcc(3) == map[0 := 0.25][1 := 0.25][0 := 0.5]
  {
    var C := map[0 := 0.25][1 := 0.25];
    ExampleAccTwo();
    ExampleErrorTwo();
    assert Get(C, 0) == 0.25;
    MsExampleStep(2, 0, C, C[0 := 0.5]);
  }

  lemma ExampleAccFour()
    ensures ExampleAcc(4) == map[0 := 0.25][1 := 0.25][0 := 0.5][-1 := 0.25]
  {
    var C := map[0 := 0.25][1 := 0.25][0 := 0.5];
    ExampleAccThree();
    ExampleErrorThree();
    assert Get(C, -1) == 0.0;
    MsExampleStep(3, -1, C, C[-1 := 0.25]);
  }

  lemma ExampleMap(C: Law)
    requires C == map[0 := 0.25][1 := 0.25][0 := 0.5][-1 := 0.25]
    ensures C == map[0 := 0.5, 1 := 0.25, -1 := 0.25]
  {
    assert C == map[0 := 0.5][1 := 0.25][-1 := 0.25];
  }

}
