/** `tail_probability` as written, and the two-sided tail mass P(|X| > t)
    that the 3n schemes sum directly. */
module Tails {
  import opened Sums
  import opened Laws

  /** `int(ceil(t))`. */
  function Ceil(t: real): (c: int)
    ensures t <= c as real < t + 1.0
  {
    -((-t).Floor)
  }

  /** `m` is `max(D.keys())`. */
  ghost predicate IsMaxKey(D: Law, m: int)
  {
    m in D && forall x :: x in D ==> x <= m
  }

  lemma {:induction false} MaxKeyExists(s: set<int>)
    requires s != {}
    ensures exists m :: m in s && forall x :: x in s ==> x <= m
    decreases |s|
  {
    var y := Pick(s);
    if s - {y} != {} {
      MaxKeyExists(s - {y});
      var m :| m in s - {y} && forall x :: x in s - {y} ==> x <= m;
      assert forall x :: x in s ==> x == y || x in s - {y};
      if y > m {
        assert forall x :: x in s ==> x <= y;
      } else {
        assert forall x :: x in s ==> x <= m;
      }
    } else {
      forall x | x in s
        ensures x == y
      {
        assert x !in s - {y};
      }
    }
  }

  /** `max(D.keys())` of a non-empty law. */
  ghost function MaxKey(D: Law): (m: int)
    requires |D| > 0
    ensures IsMaxKey(D, m)
  {
    assert |D.Keys| > 0;
    MaxKeyExists(D.Keys);
    var m :| m in D.Keys && forall x :: x in D.Keys ==> x <= m;
    m
  }

  lemma MaxKeyUnique(D: Law, m: int, n: int)
    requires IsMaxKey(D, m) && IsMaxKey(D, n)
    ensures m == n
  {
  }

  /** `max(D.keys())`. */
  method MaxOfKeys(D: Law) returns (m: int)
    requires |D| > 0
    ensures m == MaxKey(D)
  {
    var rest := D.Keys;
    assert |rest| > 0;
    ghost var first := Pick(rest);
    m :| m in rest;
    rest := rest - {m};
    while rest != {}
      invariant rest <= D.Keys && m in D
      invariant forall x :: x in D && x !in rest ==> x <= m
      decreases |rest|
    {
      ghost var some := Pick(rest);
      var x :| x in rest;
      if x > m {
        m := x;
      }
      rest := rest - {x};
    }
    MaxKeyUnique(D, m, MaxKey(D));
  }

  /** `D.get(i, 0) + D.get(-i, 0)`: the mass at `i` and at `-i`. */
  ghost function Pair(D: Law): int -> real
  {
    i => Get(D, i) + Get(D, -i)
  }

  /** What `tail_probability(D, t)` returns: 0 for an empty law or for `t` at
      or above the largest key, and otherwise the sum of `Pair(D)` over the
      integers in [ceil(t), max key). */
  ghost function TailProbabilityOf(D: Law, t: real): real
  {
    if |D| == 0 then 0.0
    else if t >= MaxKey(D) as real then 0.0
    else RangeSum(Ceil(t), MaxKey(D), Pair(D))
  }

  /** `tail_probability`: the scan from the largest key down to ceil(t). */
  method TailProbability(D: Law, t: real) returns (s: real)
    ensures s == TailProbabilityOf(D, t)
  {
    if |D| == 0 {
      return 0.0;
    }
    s := 0.0;
    var ma := MaxOfKeys(D);
    if t >= ma as real {
      return 0.0;
    }
    var lo := Ceil(t);
    var i := ma;
    while i > lo
      invariant lo <= i <= ma
      invariant s == RangeSum(i, ma, Pair(D))
      decreases i - lo
    {
      i := i - 1;
      s := s + (Get(D, i) + Get(D, -i));
    }
  }

  lemma {:induction false} RangeSumNonNeg(lo: int, hi: int, f: int -> real)
    requires forall i :: lo <= i < hi ==> 0.0 <= f(i)
    ensures 0.0 <= RangeSum(lo, hi, f)
    decreases hi - lo
  {
    if lo < hi {
      RangeSumNonNeg(lo + 1, hi, f);
    }
  }

  /** Dropping non-negative terms from the front of a range sum. */
  lemma {:induction false} RangeSumSuffix(lo: int, mid: int, hi: int, f: int -> real)
    requires lo <= mid <= hi
    requires forall i :: lo <= i < hi ==> 0.0 <= f(i)
    ensures RangeSum(mid, hi, f) <= RangeSum(lo, hi, f)
    decreases mid - lo
  {
    if lo < mid {
      RangeSumSuffix(lo + 1, mid, hi, f);
    }
  }

  lemma PairNonNeg(D: Law)
    requires NonNeg(D)
    ensures forall i :: 0.0 <= Pair(D)(i)
  {
  }

  /** The scan never returns a negative mass. */
  lemma TailProbabilityNonNeg(D: Law, t: real)
    requires NonNeg(D)
    ensures 0.0 <= TailProbabilityOf(D, t)
  {
    PairNonNeg(D);
    if |D| > 0 && t < MaxKey(D) as real {
      RangeSumNonNeg(Ceil(t), MaxKey(D), Pair(D));
    }
  }

  /** A larger threshold never gives a larger tail. */
  lemma TailProbabilityNonIncreasing(D: Law, t1: real, t2: real)
    requires NonNeg(D) && t1 <= t2
    ensures TailProbabilityOf(D, t2) <= TailProbabilityOf(D, t1)
  {
    TailProbabilityNonNeg(D, t1);
    if |D| > 0 && t2 < MaxKey(D) as real {
      PairNonNeg(D);
      RangeSumSuffix(Ceil(t1), Ceil(t2), MaxKey(D), Pair(D));
    }
  }

  /** A threshold at or above the support's bound gives 0. */
  lemma TailProbabilityBeyond(D: Law, m: int, t: real)
    requires Bounded(D, m) && m as real <= t
    ensures TailProbabilityOf(D, t) == 0.0
  {
    if |D| > 0 {
      var x := MaxKey(D);
      assert x <= m;
    }
  }

  // ---------------------------------------------------------------------
  // P(|X| > t), as the tail loops of the three-part schemes compute it

  /** The mass at `x` when `|x| > t`, and 0 otherwise. */
  ghost function Over(D: Law, t: real): int -> real
  {
    x => if t < Abs(x) as real then Get(D, x) else 0.0
  }

  /** P(|X| > t): the mass of the keys whose absolute value exceeds `t`. */
  ghost function TailAbove(D: Law, t: real): real
  {
    Sum(D.Keys, Over(D, t))
  }

  /** `sum(p for x, p in D.items() if abs(x) > t)`, accumulated key by key. */
  method TailMass(D: Law, t: real) returns (s: real)
    ensures s == TailAbove(D, t)
  {
    s := 0.0;
    var rest := D.Keys;
    while rest != {}
      invariant rest <= D.Keys
      invariant s + Sum(rest, Over(D, t)) == TailAbove(D, t)
      decreases |rest|
    {
      ghost var some := Pick(rest);
      var x :| x in rest;
      SumRemove(rest, Over(D, t), x);
      if Abs(x) as real > t {
        s := s + D[x];
      }
      rest := rest - {x};
    }
  }

  lemma TailAboveNonNeg(D: Law, t: real)
    requires NonNeg(D)
    ensures 0.0 <= TailAbove(D, t)
  {
    SumNonNeg(D.Keys, Over(D, t));
  }

  /** The tail is part of the whole mass. */
  lemma TailAboveAtMostMass(D: Law, t: real)
    requires NonNeg(D)
    ensures TailAbove(D, t) <= Mass(D)
  {
    SumMonotone(D.Keys, Over(D, t), Density(D));
  }

  /** A larger threshold never gives a larger tail. */
  lemma TailAboveNonIncreasing(D: Law, t1: real, t2: real)
    requires NonNeg(D) && t1 <= t2
    ensures TailAbove(D, t2) <= TailAbove(D, t1)
  {
    SumMonotone(D.Keys, Over(D, t2), Over(D, t1));
  }

  /** Below zero every key counts, so the tail is the whole mass. */
  lemma TailAboveNegative(D: Law, t: real)
    requires t < 0.0
    ensures TailAbove(D, t) == Mass(D)
  {
    SumExt(D.Keys, Over(D, t), Density(D));
  }

  /** At or beyond the support's bound the tail is empty. */
  lemma TailAboveBeyond(D: Law, m: int, t: real)
    requires Bounded(D, m) && m as real <= t
    ensures TailAbove(D, t) == 0.0
  {
    SumZero(D.Keys, Over(D, t));
  }

  /** A key above the threshold puts its mass into the tail. */
  lemma TailAboveAtLeast(D: Law, t: real, x: int)
    requires NonNeg(D) && x in D && t < Abs(x) as real
    ensures D[x] <= TailAbove(D, t)
  {
    SumRemove(D.Keys, Over(D, t), x);
    SumNonNeg(D.Keys - {x}, Over(D, t));
  }

  // ---------------------------------------------------------------------
  // Where the scan and P(|X| > t) part ways

  /** The centered binomial law for k = 1: {-1: 1/4, 0: 1/2, 1: 1/4}. */
  function TernaryLaw(): Law
  {
    map[-1 := 0.25, 0 := 0.5, 1 := 0.25]
  }

  lemma TernaryMaxKey()
    ensures |TernaryLaw()| > 0 && MaxKey(TernaryLaw()) == 1
  {
    var D := TernaryLaw();
    assert 1 in D;
    MaxKeyUnique(D, 1, MaxKey(D));
  }

  lemma TernaryTailAbove(t: real)
    requires 0.0 <= t < 1.0
    ensures TailAbove(TernaryLaw(), t) == 0.5
  {
    var D := TernaryLaw();
    assert D.Keys == {-1, 0, 1};
    SumRemove({-1, 0, 1}, Over(D, t), 0);
    assert {-1, 0, 1} - {0} == {-1, 1};
    SumRemove({-1, 1}, Over(D, t), 1);
    assert {-1, 1} - {1} == {-1};
    SumSingleton(-1, Over(D, t));
  }

  /** For an integer threshold the scan counts the keys at |x| = t, which are
      not above it, and counts the key 0 twice; for t = 0 on the ternary law
      it returns 1 where P(|X| > 0) is 1/2. */
  lemma TailProbabilityAtZero()
    ensures TailProbabilityOf(TernaryLaw(), 0.0) == 1.0
    ensures TailAbove(TernaryLaw(), 0.0) == 0.5
  {
    var D := TernaryLaw();
    TernaryMaxKey();
    assert Ceil(0.0) == 0;
    assert Pair(D)(0) == Get(D, 0) + Get(D, 0) == 1.0;
    assert RangeSum(0, 1, Pair(D)) == Pair(D)(0) + RangeSum(1, 1, Pair(D));
    TernaryTailAbove(0.0);
  }

  /** The scan stops below the largest key, so the keys at the extremes are
      never counted; for t = 1/2 on the ternary law it returns 0 where
      P(|X| > 1/2) is 1/2. */
  lemma TailProbabilityBelowMax()
    ensures TailProbabilityOf(TernaryLaw(), 0.5) == 0.0
    ensures TailAbove(TernaryLaw(), 0.5) == 0.5
  {
    TernaryMaxKey();
    TernaryTailAbove(0.5);
  }
}
