/** `iter_law_convolution`: the i-fold self-convolution by square-and-multiply
    over the characters of `bin(i)[2:]`, pruning after every convolution. */
module Iteration {
  import opened Sums
  import opened Laws
  import opened Algebra
  import opened Engine

  /** The binary digits of `n`, most significant first; empty for 0. */
  function Digits(n: nat): string
  {
    if n == 0 then [] else Digits(n / 2) + [if n % 2 == 1 then '1' else '0']
  }

  /** `bin(i)[2:]`: "0" for 0, the digits for i > 0, and for i < 0 the
      string `bin` gives after its two leading characters "-0", that is
      'b' followed by the digits of -i. */
  function Bits(i: int): string
  {
    if i == 0 then "0" else if i > 0 then Digits(i) else "b" + Digits(-i)
  }

  /** The number a string of bits denotes; a character other than '1'
      counts as a 0 digit, as in the loop. */
  function Value(s: string): nat
  {
    if s == [] then 0 else 2 * Value(s[..|s| - 1]) + (if s[|s| - 1] == '1' then 1 else 0)
  }

  /** One pass of the loop body for character `ch`. */
  ghost function Step(D: Law, A: Law, ch: char): Law
  {
    var S := Clean(Conv(D, D));
    if ch == '1' then Clean(Conv(S, A)) else S
  }

  /** The law the loop holds after the characters of `s`. */
  ghost function Run(A: Law, s: string): Law
  {
    if s == [] then Unit else Step(Run(A, s[..|s| - 1]), A, s[|s| - 1])
  }

  ghost function IterLaw(A: Law, i: int): Law
  {
    Run(A, Bits(i))
  }

  /** The loop of `iter_law_convolution`. */
  method IterLawConvolution(A: Law, i: int) returns (D: Law)
    ensures D == IterLaw(A, i)
  {
    D := map[0 := 1.0];
    var bits := Bits(i);
    var k := 0;
    while k < |bits|
      invariant 0 <= k <= |bits|
      invariant D == Run(A, bits[..k])
    {
      assert bits[..k + 1] == bits[..k] + [bits[k]];
      RunSnoc(A, bits[..k], bits[k]);
      D := SquareStep(D, A, bits[k]);
      k := k + 1;
    }
    assert bits[..|bits|] == bits;
  }

  /** One pass of the loop body: square, prune, and on a '1' multiply by
      `A` and prune again. */
  method SquareStep(D: Law, A: Law, ch: char) returns (D': Law)
    ensures D' == Step(D, A, ch)
  {
    D' := LawConvolution(D, D);
    D' := CleanDist(D');
    if ch == '1' {
      D' := LawConvolution(D', A);
      D' := CleanDist(D');
      StepOne(D, A, ch);
    } else {
      StepNotOne(D, A, ch);
    }
  }

  lemma StepOne(D: Law, A: Law, ch: char)
    requires ch == '1'
    ensures Step(D, A, ch) == Clean(Conv(Clean(Conv(D, D)), A))
  {
  }

  lemma StepNotOne(D: Law, A: Law, ch: char)
    requires ch != '1'
    ensures Step(D, A, ch) == Clean(Conv(D, D))
  {
  }

  // ---------------------------------------------------------------------
  // The bit string

  lemma {:induction false} DigitsValue(n: nat)
    ensures Value(Digits(n)) == n
    ensures forall k :: 0 <= k < |Digits(n)| ==> Digits(n)[k] in "01"
    ensures n > 0 ==> |Digits(n)| > 0 && Digits(n)[0] == '1'
    decreases n
  {
    if n > 0 {
      var d := Digits(n);
      DigitsValue(n / 2);
      assert d[..|d| - 1] == Digits(n / 2);
      if n / 2 > 0 {
        assert d[0] == Digits(n / 2)[0];
      }
    }
  }

  /** A leading character other than '1' adds nothing to the value. */
  lemma {:induction false} ValueLeadingZero(c: char, s: string)
    requires c != '1'
    ensures Value([c] + s) == Value(s)
    decreases |s|
  {
    if s != [] {
      var t := [c] + s;
      assert t[..|t| - 1] == [c] + s[..|s| - 1];
      ValueLeadingZero(c, s[..|s| - 1]);
    }
  }

  /** `bin(i)[2:]` denotes `|i|`; for i > 0 it is a plain binary numeral with
      no leading zero. */
  lemma {:induction false} BitsValue(i: int)
    ensures Value(Bits(i)) == Abs(i)
    ensures i > 0 ==> Bits(i)[0] == '1' && forall k :: 0 <= k < |Bits(i)| ==> Bits(i)[k] in "01"
  {
    if i == 0 {
      BitsZero();
    } else if i > 0 {
      BitsPositive(i);
    } else {
      BitsNegative(i);
    }
  }

  lemma BitsZero()
    ensures Value(Bits(0)) == 0
  {
    assert Value("0") == 2 * Value([]) + 0;
  }

  lemma BitsPositive(i: int)
    requires i > 0
    ensures Bits(i) == Digits(i) && Value(Bits(i)) == i
    ensures Bits(i)[0] == '1' && forall k :: 0 <= k < |Bits(i)| ==> Bits(i)[k] in "01"
  {
    DigitsValue(i);
  }

  lemma BitsNegative(i: int)
    requires i < 0
    ensures Value(Bits(i)) == -i
  {
    assert Bits(i) == "b" + Digits(-i);
    DigitsValue(-i);
    ValueLeadingZero('b', Digits(-i));
  }

  // ---------------------------------------------------------------------
  // Laws of the loop

  lemma RunSnoc(A: Law, s: string, c: char)
    ensures Run(A, s + [c]) == Step(Run(A, s), A, c)
  {
    assert (s + [c])[..|s|] == s;
  }

  lemma CleanUnit()
    ensures Clean(Unit) == Unit
  {
    CutoffPositive();
    CleanIdentity(Unit);
  }

  lemma ConvUnitUnit()
    ensures Conv(Unit, Unit) == Unit
  {
    ConvUnitLeft(Unit);
  }

  lemma StepUnit(A: Law, c: char)
    requires c != '1'
    ensures Step(Unit, A, c) == Unit
  {
    ConvUnitUnit();
    CleanUnit();
  }

  lemma {:induction false} RunLeadingZero(A: Law, c: char, s: string)
    requires c != '1'
    ensures Run(A, [c] + s) == Run(A, s)
    decreases |s|
  {
    if s == [] {
      assert [c] + s == [] + [c];
      RunSnoc(A, [], c);
      StepUnit(A, c);
    } else {
      var p, x := s[..|s| - 1], s[|s| - 1];
      assert s == p + [x];
      assert [c] + s == ([c] + p) + [x];
      RunLeadingZero(A, c, p);
      RunSnoc(A, [c] + p, x);
      RunSnoc(A, p, x);
    }
  }

  /** `iter_law_convolution(A, 0)` is `{0: 1}`. */
  lemma IterZero(A: Law)
    ensures IterLaw(A, 0) == Unit
  {
    assert Bits(0) == [] + ['0'];
    RunSnoc(A, [], '0');
    StepUnit(A, '0');
  }

  /** For a negative count the 'b' character only squares `{0: 1}`, so the
      result is that of `-i`. */
  lemma {:induction false} IterNegative(A: Law, i: int)
    requires i < 0
    ensures IterLaw(A, i) == IterLaw(A, -i)
  {
    RunLeadingZero(A, 'b', Digits(-i));
  }

  // ---------------------------------------------------------------------
  // Mass, support and symmetry of the pruned loop

  lemma ValueSnoc(s: string, c: char)
    ensures Value(s + [c]) == Value(s) + Value(s) + (if c == '1' then 1 else 0)
  {
    assert (s + [c])[..|s|] == s;
  }

  lemma CleanConvBounded(X: Law, Y: Law, m1: int, m2: int)
    requires Bounded(X, m1) && Bounded(Y, m2)
    ensures Bounded(Clean(Conv(X, Y)), m1 + m2)
  {
    ConvBounded(X, Y, m1, m2);
    CleanPreserves(Conv(X, Y), m1 + m2);
  }

  lemma CleanConvSymmetric(X: Law, Y: Law)
    requires Symmetric(X) && Symmetric(Y)
    ensures Symmetric(Clean(Conv(X, Y)))
  {
    ConvSymmetric(X, Y);
    CleanPreserves(Conv(X, Y), 0);
  }

  lemma StepBounded(D: Law, A: Law, ch: char, b: int, m: int)
    requires Bounded(D, b) && Bounded(A, m)
    ensures Bounded(Step(D, A, ch), b + b + (if ch == '1' then m else 0))
  {
    CleanConvBounded(D, D, b, b);
    if ch == '1' {
      CleanConvBounded(Clean(Conv(D, D)), A, b + b, m);
      StepOne(D, A, ch);
    } else {
      StepNotOne(D, A, ch);
    }
  }

  lemma StepSymmetric(D: Law, A: Law, ch: char)
    requires Symmetric(D) && Symmetric(A)
    ensures Symmetric(Step(D, A, ch))
  {
    CleanConvSymmetric(D, D);
    if ch == '1' {
      CleanConvSymmetric(Clean(Conv(D, D)), A);
      StepOne(D, A, ch);
    } else {
      StepNotOne(D, A, ch);
    }
  }

  lemma ValueTimes(s: string, c: char, m: int)
    ensures Value(s + [c]) * m == Value(s) * m + Value(s) * m + (if c == '1' then m else 0)
  {
    ValueSnoc(s, c);
  }

  lemma {:induction false} RunBounded(A: Law, s: string, m: int)
    requires Bounded(A, m)
    ensures Bounded(Run(A, s), Value(s) * m)
    decreases |s|
  {
    if s == [] {
      assert Bounded(Unit, 0);
    } else {
      var p, c := s[..|s| - 1], s[|s| - 1];
      assert s == p + [c];
      RunBounded(A, p, m);
      StepBounded(Run(A, p), A, c, Value(p) * m, m);
      RunSnoc(A, p, c);
      ValueTimes(p, c, m);
    }
  }

  lemma {:induction false} RunSymmetric(A: Law, s: string)
    requires Symmetric(A)
    ensures Symmetric(Run(A, s))
    decreases |s|
  {
    if s == [] {
      assert Symmetric(Unit);
    } else {
      var p, c := s[..|s| - 1], s[|s| - 1];
      assert s == p + [c];
      RunSymmetric(A, p);
      StepSymmetric(Run(A, p), A, c);
      RunSnoc(A, p, c);
    }
  }

  /** Every value of the i-fold law lies in [-|i| m, |i| m], and a symmetric
      input gives a symmetric result. */
  lemma IterPreserves(A: Law, i: int, m: int)
    requires Bounded(A, m)
    ensures Bounded(IterLaw(A, i), Abs(i) * m)
    ensures Symmetric(A) ==> Symmetric(IterLaw(A, i))
  {
    RunBounded(A, Bits(i), m);
    if Symmetric(A) {
      RunSymmetric(A, Bits(i));
    }
    BitsValue(i);
  }

  // ---------------------------------------------------------------------
  // Without pruning: the n-fold convolution
}
