/** Associativity of convolution and the i-fold self-convolution it makes
    well defined: the reference the binary-exponentiation loop of
    `iter_law_convolution` is compared with. */
module Algebra {
  import opened Sums
  import opened Laws

  lemma {:induction false} ConvAtRight(A: Law, B: Law, c: int)
    ensures Get(Conv(A, B), c) == Sum(B.Keys, ConvTerm(B, A, c))
  {
    ConvCommutes(A, B);
    ConvAt(B, A, c);
  }

  /** `(c, a) => C[c] * (A[a] * B[d - c - a])`: a term of the triple sum. */
  ghost function TripleTerm(A: Law, B: Law, C: Law, d: int): ((int, int)) -> real
  {
    (p: (int, int)) => Get(C, p.0) * (Get(A, p.1) * Get(B, d - p.0 - p.1))
  }

  lemma MulRotate(x: real, y: real, z: real, w: real)
    requires w == y * z
    ensures x * w == y * (x * z)
  {
  }

  lemma {:induction false} LeftPoint(A: Law, B: Law, C: Law, d: int, c: int, a: int)
    ensures Row(TripleTerm(A, B, C, d), c)(a) == Get(C, c) * ConvTerm(A, B, d - c)(a)
  {
    var t := Get(A, a) * Get(B, d - c - a);
    assert ConvTerm(A, B, d - c)(a) == t;
    assert Row(TripleTerm(A, B, C, d), c)(a) == Get(C, c) * t;
  }

  lemma {:induction false} LeftPoints(A: Law, B: Law, C: Law, d: int, c: int)
    ensures forall a | a in A :: Row(TripleTerm(A, B, C, d), c)(a) == Get(C, c) * ConvTerm(A, B, d - c)(a)
  {
    forall a | a in A ensures Row(TripleTerm(A, B, C, d), c)(a) == Get(C, c) * ConvTerm(A, B, d - c)(a) {
      LeftPoint(A, B, C, d, c, a);
    }
  }

  lemma {:induction false} LeftScale(A: Law, B: Law, C: Law, d: int, c: int)
    ensures Sum(A.Keys, Row(TripleTerm(A, B, C, d), c)) == Get(C, c) * Sum(A.Keys, ConvTerm(A, B, d - c))
  {
    LeftPoints(A, B, C, d, c);
    SumScale(A.Keys, ConvTerm(A, B, d - c), Get(C, c), Row(TripleTerm(A, B, C, d), c));
  }

  /** From the scaled row sum to the row-sums function, with the function on
      pairs kept abstract so that nothing about it is unfolded. */
  lemma RowLink(F: ((int, int)) -> real, s: set<int>, H: int -> real, g: real, c: int, x: real)
    requires Sum(s, Row(F, c)) == g * Sum(s, H) && x == Sum(s, H)
    ensures RowSums(F, s)(c) == g * x
  {
  }

  lemma ConvTermAt(A: Law, B: Law, c: int, a: int)
    ensures ConvTerm(A, B, c)(a) == Get(A, a) * Get(B, c - a)
  {
  }

  /** The row at `c`, for any law `X` whose value at `d - c` is the
      convolution sum of `A` and `B` there. */
  lemma {:induction false} LeftRowWith(A: Law, B: Law, C: Law, d: int, c: int, X: Law)
    requires Get(X, d - c) == Sum(A.Keys, ConvTerm(A, B, d - c))
    ensures RowSums(TripleTerm(A, B, C, d), A.Keys)(c) == Get(C, c) * Get(X, d - c)
  {
    LeftScale(A, B, C, d, c);
    RowLink(TripleTerm(A, B, C, d), A.Keys, ConvTerm(A, B, d - c), Get(C, c), c, Get(X, d - c));
  }

  lemma {:induction false} LeftRow(A: Law, B: Law, C: Law, d: int, c: int)
    ensures RowSums(TripleTerm(A, B, C, d), A.Keys)(c) == Get(C, c) * Get(Conv(A, B), d - c)
  {
    ConvAt(A, B, d - c);
    LeftRowWith(A, B, C, d, c, Conv(A, B));
  }

  lemma {:induction false} LeftTerm(A: Law, B: Law, C: Law, d: int, c: int)
    ensures ConvTerm(C, Conv(A, B), d)(c) == RowSums(TripleTerm(A, B, C, d), A.Keys)(c)
  {
    ConvTermAt(C, Conv(A, B), d, c);
    LeftRow(A, B, C, d, c);
  }

  lemma {:induction false} LeftTerms(A: Law, B: Law, C: Law, d: int)
    ensures forall c | c in C :: ConvTerm(C, Conv(A, B), d)(c) == RowSums(TripleTerm(A, B, C, d), A.Keys)(c)
  {
    forall c | c in C ensures ConvTerm(C, Conv(A, B), d)(c) == RowSums(TripleTerm(A, B, C, d), A.Keys)(c) {
      LeftTerm(A, B, C, d, c);
    }
  }

  /** The left-nested sum at `d`, as a double sum over `C` and `A`. */
  lemma {:induction false} LeftNested(A: Law, B: Law, C: Law, d: int)
    ensures Get(Conv(Conv(A, B), C), d) == Sum(C.Keys, RowSums(TripleTerm(A, B, C, d), A.Keys))
  {
    ConvAtRight(Conv(A, B), C, d);
    LeftTerms(A, B, C, d);
    SumExt(C.Keys, ConvTerm(C, Conv(A, B), d), RowSums(TripleTerm(A, B, C, d), A.Keys));
  }

  lemma {:induction false} RightPoint(A: Law, B: Law, C: Law, d: int, a: int, c: int)
    ensures Row(Swapped(TripleTerm(A, B, C, d)), a)(c) == Get(A, a) * ConvTerm(C, B, d - a)(c)
  {
    var t := Get(C, c) * Get(B, d - a - c);
    assert Row(Swapped(TripleTerm(A, B, C, d)), a)(c) == Get(C, c) * (Get(A, a) * Get(B, d - a - c));
    assert ConvTerm(C, B, d - a)(c) == t;
    MulRotate(Get(A, a), Get(C, c), Get(B, d - a - c), t);
  }

  lemma {:induction false} RightPoints(A: Law, B: Law, C: Law, d: int, a: int)
    ensures forall c | c in C :: Row(Swapped(TripleTerm(A, B, C, d)), a)(c) == Get(A, a) * ConvTerm(C, B, d - a)(c)
  {
    forall c | c in C ensures Row(Swapped(TripleTerm(A, B, C, d)), a)(c) == Get(A, a) * ConvTerm(C, B, d - a)(c) {
      RightPoint(A, B, C, d, a, c);
    }
  }

  lemma {:induction false} RightScale(A: Law, B: Law, C: Law, d: int, a: int)
    ensures Sum(C.Keys, Row(Swapped(TripleTerm(A, B, C, d)), a)) == Get(A, a) * Sum(C.Keys, ConvTerm(C, B, d - a))
  {
    RightPoints(A, B, C, d, a);
    SumScale(C.Keys, ConvTerm(C, B, d - a), Get(A, a), Row(Swapped(TripleTerm(A, B, C, d)), a));
  }

  lemma {:induction false} RightRowWith(A: Law, B: Law, C: Law, d: int, a: int, X: Law)
    requires Get(X, d - a) == Sum(C.Keys, ConvTerm(C, B, d - a))
    ensures RowSums(Swapped(TripleTerm(A, B, C, d)), C.Keys)(a) == Get(A, a) * Get(X, d - a)
  {
    RightScale(A, B, C, d, a);
    RowLink(Swapped(TripleTerm(A, B, C, d)), C.Keys, ConvTerm(C, B, d - a), Get(A, a), a, Get(X, d - a));
  }

  lemma {:induction false} RightRow(A: Law, B: Law, C: Law, d: int, a: int)
    ensures RowSums(Swapped(TripleTerm(A, B, C, d)), C.Keys)(a) == Get(A, a) * Get(Conv(B, C), d - a)
  {
    ConvAtRight(B, C, d - a);
    RightRowWith(A, B, C, d, a, Conv(B, C));
  }

  lemma {:induction false} RightTerm(A: Law, B: Law, C: Law, d: int, a: int)
    ensures ConvTerm(A, Conv(B, C), d)(a) == RowSums(Swapped(TripleTerm(A, B, C, d)), C.Keys)(a)
  {
    ConvTermAt(A, Conv(B, C), d, a);
    RightRow(A, B, C, d, a);
  }

  lemma {:induction false} RightTerms(A: Law, B: Law, C: Law, d: int)
    ensures forall a | a in A :: ConvTerm(A, Conv(B, C), d)(a) == RowSums(Swapped(TripleTerm(A, B, C, d)), C.Keys)(a)
  {
    forall a | a in A ensures ConvTerm(A, Conv(B, C), d)(a) == RowSums(Swapped(TripleTerm(A, B, C, d)), C.Keys)(a) {
      RightTerm(A, B, C, d, a);
    }
  }

  /** The right-nested sum at `d`, as a double sum over `A` and `C`. */
  lemma {:induction false} RightNested(A: Law, B: Law, C: Law, d: int)
    ensures Get(Conv(A, Conv(B, C)), d) == Sum(A.Keys, RowSums(Swapped(TripleTerm(A, B, C, d)), C.Keys))
  {
    ConvAt(A, Conv(B, C), d);
    RightTerms(A, B, C, d);
    SumExt(A.Keys, ConvTerm(A, Conv(B, C), d), RowSums(Swapped(TripleTerm(A, B, C, d)), C.Keys));
  }

  lemma {:induction false} ConvAssocAt(A: Law, B: Law, C: Law, d: int)
    ensures Get(Conv(Conv(A, B), C), d) == Get(Conv(A, Conv(B, C)), d)
  {
    LeftNested(A, B, C, d);
    RightNested(A, B, C, d);
    SumSwap(C.Keys, A.Keys, TripleTerm(A, B, C, d));
  }

  /** A value is a key of a nested convolution iff it is a sum of three keys. */
  ghost predicate TripleSum(A: Law, B: Law, C: Law, d: int)
  {
    exists a, b, c :: a in A && b in B && c in C && d == a + b + c
  }

  lemma {:induction false} LeftNestedIn(A: Law, B: Law, C: Law, d: int)
    requires d in Conv(Conv(A, B), C)
    ensures TripleSum(A, B, C, d)
  {
    var x, c := ConvWitness(Conv(A, B), C, d);
    var a, b := ConvWitness(A, B, x);
    TripleWitness(A, B, C, d, a, b, c);
  }

  /** A value of `Conv(A, B)` is a sum of a value of `A` and one of `B`. */
  lemma ConvWitness(A: Law, B: Law, c: int) returns (a: int, b: int)
    requires c in Conv(A, B)
    ensures a in A && b in B && c == a + b
  {
    ConvKeys(A, B, c);
    a, b :| a in A && b in B && c == a + b;
  }

  /** The sum of a value of `A` and one of `B` is a value of `Conv(A, B)`. */
  lemma ConvMember(A: Law, B: Law, a: int, b: int)
    requires a in A && b in B
    ensures a + b in Conv(A, B)
  {
    ConvKeys(A, B, a + b);
  }

  lemma TripleWitness(A: Law, B: Law, C: Law, d: int, a: int, b: int, c: int)
    requires a in A && b in B && c in C && d == a + b + c
    ensures TripleSum(A, B, C, d)
  {
  }

  lemma {:induction false} LeftNestedOut(A: Law, B: Law, C: Law, d: int, a: int, b: int, c: int)
    requires a in A && b in B && c in C && d == a + b + c
    ensures d in Conv(Conv(A, B), C)
  {
    ConvMember(A, B, a, b);
    ConvMember(Conv(A, B), C, a + b, c);
  }

  lemma {:induction false} LeftNestedKeys(A: Law, B: Law, C: Law, d: int)
    ensures d in Conv(Conv(A, B), C) <==> TripleSum(A, B, C, d)
  {
    if d in Conv(Conv(A, B), C) {
      LeftNestedIn(A, B, C, d);
    } else if TripleSum(A, B, C, d) {
      var a, b, c :| a in A && b in B && c in C && d == a + b + c;
      LeftNestedOut(A, B, C, d, a, b, c);
    }
  }

  lemma {:induction false} RightNestedIn(A: Law, B: Law, C: Law, d: int)
    requires d in Conv(A, Conv(B, C))
    ensures TripleSum(A, B, C, d)
  {
    var a, y := ConvWitness(A, Conv(B, C), d);
    var b, c := ConvWitness(B, C, y);
    TripleWitness(A, B, C, d, a, b, c);
  }

  lemma {:induction false} RightNestedOut(A: Law, B: Law, C: Law, d: int, a: int, b: int, c: int)
    requires a in A && b in B && c in C && d == a + b + c
    ensures d in Conv(A, Conv(B, C))
  {
    ConvMember(B, C, b, c);
    ConvMember(A, Conv(B, C), a, b + c);
  }

  lemma {:induction false} RightNestedKeys(A: Law, B: Law, C: Law, d: int)
    ensures d in Conv(A, Conv(B, C)) <==> TripleSum(A, B, C, d)
  {
    if d in Conv(A, Conv(B, C)) {
      RightNestedIn(A, B, C, d);
    } else if TripleSum(A, B, C, d) {
      var a, b, c :| a in A && b in B && c in C && d == a + b + c;
      RightNestedOut(A, B, C, d, a, b, c);
    }
  }

  /** Convolution is associative. */
  lemma {:induction false} ConvAssoc(A: Law, B: Law, C: Law)
    ensures Conv(Conv(A, B), C) == Conv(A, Conv(B, C))
  {
    forall d ensures d in Conv(Conv(A, B), C) <==> d in Conv(A, Conv(B, C)) {
      LeftNestedKeys(A, B, C, d);
      RightNestedKeys(A, B, C, d);
    }
    forall d ensures Get(Conv(Conv(A, B), C), d) == Get(Conv(A, Conv(B, C)), d) {
      ConvAssocAt(A, B, C, d);
    }
    LawExt(Conv(Conv(A, B), C), Conv(A, Conv(B, C)));
  }
}
