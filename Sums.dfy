/** Finite sums of real-valued terms over finite sets and integer ranges.
    Every probability mass in the model is one of these sums. */
module Sums {

  /** The image of a finite set under a function. */
  ghost function Image<T, U>(s: set<T>, h: T -> U): set<U>
  {
    set x | x in s :: h(x)
  }

  /** All pairs with first component in `s` and second in `t`. */
  ghost function Pairs<X, Y>(s: set<X>, t: set<Y>): set<(X, Y)>
  {
    set a, b | a in s && b in t :: (a, b)
  }

  /** Some element of a non-empty set, as a ghost witness for `:|`. */
  lemma Pick<T>(s: set<T>) returns (x: T)
    requires s != {}
    ensures x in s
  {
    if forall y :: y !in s {
      assert false;
    }
    x :| x in s;
  }

  /** The half-open integer interval [lo, hi). */
  ghost function IntRange(lo: int, hi: int): set<int>
    decreases hi - lo
  {
    if lo >= hi then {} else {lo} + IntRange(lo + 1, hi)
  }

  lemma {:induction false} IntRangeMember(lo: int, hi: int)
    ensures forall x :: x in IntRange(lo, hi) <==> lo <= x < hi
    decreases hi - lo
  {
    if lo < hi {
      IntRangeMember(lo + 1, hi);
    }
  }

  /** The sum of `f` over a finite set, in no particular order. */
  ghost function Sum<T>(s: set<T>, f: T -> real): real
    decreases |s|
  {
    if s == {} then 0.0
    else
      var x :| x in s;
      f(x) + Sum(s - {x}, f)
  }

  /** The sum of `f` over [lo, hi), taken from `lo` upwards. */
  ghost function RangeSum(lo: int, hi: int, f: int -> real): real
    decreases hi - lo
  {
    if lo >= hi then 0.0 else f(lo) + RangeSum(lo + 1, hi, f)
  }

  /** `x => F((a, x))`: the row of a function on pairs at first component `a`. */
  ghost function Row<X, Y>(F: ((X, Y)) -> real, a: X): Y -> real
  {
    b => F((a, b))
  }

  /** `a => Sum(t, Row(F, a))`: the row sums of a function on pairs. */
  ghost function RowSums<X, Y>(F: ((X, Y)) -> real, t: set<Y>): X -> real
  {
    a => Sum(t, Row(F, a))
  }

  /** Swapping the components of a function on pairs. */
  ghost function Swapped<X, Y>(F: ((X, Y)) -> real): ((Y, X)) -> real
  {
    (p: (Y, X)) => F((p.1, p.0))
  }

  ghost function Swap<X, Y>(p: (X, Y)): (Y, X)
  {
    (p.1, p.0)
  }

  lemma PairsMember<X, Y>(s: set<X>, t: set<Y>, a: X, b: Y)
    ensures (a, b) in Pairs(s, t) <==> a in s && b in t
  {
    if a in s && b in t {
      assert (a, b) in Pairs(s, t);
    }
  }

  lemma PairsComponents<X, Y>(s: set<X>, t: set<Y>)
    ensures forall p :: p in Pairs(s, t) ==> p.0 in s && p.1 in t
  {
  }

  lemma SumRemove<T>(s: set<T>, f: T -> real, y: T)
    requires y in s
    ensures Sum(s, f) == f(y) + Sum(s - {y}, f)
    decreases |s|
  {
    var x :| x in s && Sum(s, f) == f(x) + Sum(s - {x}, f);
    if x != y {
      SumRemove(s - {x}, f, y);
      SumRemove(s - {y}, f, x);
      assert s - {x} - {y} == s - {y} - {x};
    }
  }

  lemma SumInsert<T>(s: set<T>, f: T -> real, y: T)
    requires y !in s
    ensures Sum(s + {y}, f) == f(y) + Sum(s, f)
  {
    SumRemove(s + {y}, f, y);
    assert s + {y} - {y} == s;
  }

  lemma SumSingleton<T>(x: T, f: T -> real)
    ensures Sum({x}, f) == f(x)
  {
    SumInsert({}, f, x);
    assert {} + {x} == {x};
  }

  lemma {:induction false} SumExt<T>(s: set<T>, f: T -> real, g: T -> real)
    requires forall x :: x in s ==> f(x) == g(x)
    ensures Sum(s, f) == Sum(s, g)
    decreases |s|
  {
    if s != {} {
      var y :| y in s;
      SumRemove(s, f, y);
      SumRemove(s, g, y);
      SumExt(s - {y}, f, g);
    }
  }

  lemma {:induction false} SumZero<T>(s: set<T>, f: T -> real)
    requires forall x :: x in s ==> f(x) == 0.0
    ensures Sum(s, f) == 0.0
    decreases |s|
  {
    if s != {} {
      var y :| y in s;
      SumRemove(s, f, y);
      SumZero(s - {y}, f);
    }
  }

  /** Pointwise addition of terms adds the sums. */
  lemma {:induction false} SumAdd<T>(s: set<T>, f: T -> real, g: T -> real, h: T -> real)
    requires forall x :: x in s ==> h(x) == f(x) + g(x)
    ensures Sum(s, h) == Sum(s, f) + Sum(s, g)
    decreases |s|
  {
    if s != {} {
      var y :| y in s;
      SumRemove(s, f, y);
      SumRemove(s, g, y);
      SumRemove(s, h, y);
      SumAdd(s - {y}, f, g, h);
    }
  }

  lemma ScaleStep(s: real, a: real, b: real, g: real, ga: real, gb: real, c: real)
    requires s == a + b && g == ga + gb && ga == c * a && gb == c * b
    ensures g == c * s
  {
  }

  lemma ScaleAt<T>(s: set<T>, f: T -> real, c: real, g: T -> real, y: T)
    requires forall x :: x in s ==> g(x) == c * f(x)
    requires y in s
    ensures g(y) == c * f(y)
  {
  }

  lemma SumScaleStep<T>(s: set<T>, f: T -> real, c: real, g: T -> real, y: T)
    requires y in s && g(y) == c * f(y) && Sum(s - {y}, g) == c * Sum(s - {y}, f)
    ensures Sum(s, g) == c * Sum(s, f)
  {
    SumRemove(s, g, y);
    SumRemove(s, f, y);
    ScaleStep(Sum(s, f), f(y), Sum(s - {y}, f), Sum(s, g), g(y), Sum(s - {y}, g), c);
  }

  /** A constant factor comes out of a sum. */
  lemma {:induction false} SumScale<T>(s: set<T>, f: T -> real, c: real, g: T -> real)
    requires forall x :: x in s ==> g(x) == c * f(x)
    ensures Sum(s, g) == c * Sum(s, f)
    decreases |s|
  {
    if s != {} {
      var y := Pick(s);
      SumScale(s - {y}, f, c, g);
      ScaleAt(s, f, c, g, y);
      SumScaleStep(s, f, c, g, y);
    } else {
      assert Sum(s, g) == 0.0 && Sum(s, f) == 0.0;
    }
  }

  lemma {:induction false} SumMonotone<T>(s: set<T>, f: T -> real, g: T -> real)
    requires forall x :: x in s ==> f(x) <= g(x)
    ensures Sum(s, f) <= Sum(s, g)
    decreases |s|
  {
    if s != {} {
      var y :| y in s;
      SumRemove(s, f, y);
      SumRemove(s, g, y);
      SumMonotone(s - {y}, f, g);
    }
  }

  lemma SumNonNeg<T>(s: set<T>, f: T -> real)
    requires forall x :: x in s ==> 0.0 <= f(x)
    ensures 0.0 <= Sum(s, f)
  {
    SumZero(s, _ => 0.0);
    SumMonotone(s, _ => 0.0, f);
  }

  /** The sum over a disjoint union is the sum of the sums. */
  lemma {:induction false} SumUnion<T>(a: set<T>, b: set<T>, f: T -> real)
    requires a !! b
    ensures Sum(a + b, f) == Sum(a, f) + Sum(b, f)
    decreases |a|
  {
    if a != {} {
      var y := Pick(a);
      var r := a - {y};
      assert (a + b) - {y} == r + b;
      assert Sum(a + b, f) == f(y) + Sum(r + b, f) by { SumRemove(a + b, f, y); }
      assert Sum(a, f) == f(y) + Sum(r, f) by { SumRemove(a, f, y); }
      assert Sum(r + b, f) == Sum(r, f) + Sum(b, f) by { SumUnion(r, b, f); }
    } else {
      assert a + b == b;
    }
  }

  /** Terms that are zero outside a subset do not contribute. */
  lemma SumSupport<T>(s: set<T>, t: set<T>, f: T -> real)
    requires t <= s
    requires forall x :: x in s && x !in t ==> f(x) == 0.0
    ensures Sum(s, f) == Sum(t, f)
  {
    assert s == t + (s - t);
    SumUnion(t, s - t, f);
    SumZero(s - t, f);
  }

  /** A sum with one non-zero term. */
  lemma SumOneTerm<T>(s: set<T>, f: T -> real, y: T)
    requires y in s
    requires forall x :: x in s && x != y ==> f(x) == 0.0
    ensures Sum(s, f) == f(y)
  {
    SumSupport(s, {y}, f);
    SumSingleton(y, f);
  }

  /** A constant sum: the number of terms times the constant. */
  lemma {:induction false} SumConst<T>(s: set<T>, f: T -> real, c: real)
    requires forall x :: x in s ==> f(x) == c
    ensures Sum(s, f) == |s| as real * c
    decreases |s|
  {
    if s != {} {
      var y :| y in s;
      SumRemove(s, f, y);
      SumConst(s - {y}, f, c);
    }
  }

  /** Reindexing a sum along a function that is injective on the index set. */
  lemma {:induction false} SumImage<T, U>(s: set<T>, h: T -> U, f: U -> real, g: T -> real)
    requires forall x, y :: x in s && y in s && h(x) == h(y) ==> x == y
    requires forall x :: x in s ==> g(x) == f(h(x))
    ensures Sum(Image(s, h), f) == Sum(s, g)
    decreases |s|
  {
    if s != {} {
      var y :| y in s;
      assert Image(s, h) == Image(s - {y}, h) + {h(y)};
      assert h(y) !in Image(s - {y}, h);
      SumInsert(Image(s - {y}, h), f, h(y));
      SumRemove(s, g, y);
      SumImage(s - {y}, h, f, g);
    }
  }

  /** The pairs with first component `a`. */
  ghost function RowPairs<X, Y>(a: X, t: set<Y>): set<(X, Y)>
  {
    Image(t, (b: Y) => (a, b))
  }

  lemma {:induction false} PairsSplit<X, Y>(s: set<X>, t: set<Y>, a: X)
    requires a in s
    ensures Pairs(s, t) == Pairs(s - {a}, t) + RowPairs(a, t)
    ensures Pairs(s - {a}, t) !! RowPairs(a, t)
  {
    forall p ensures p in Pairs(s, t) <==> p in Pairs(s - {a}, t) + RowPairs(a, t) {
      PairsMember(s, t, p.0, p.1);
      PairsMember(s - {a}, t, p.0, p.1);
      if p.0 == a && p.1 in t {
        assert ((b: Y) => (a, b))(p.1) == p;
      }
    }
    forall p | p in RowPairs(a, t) ensures p !in Pairs(s - {a}, t) {
      PairsMember(s - {a}, t, p.0, p.1);
    }
  }

  lemma {:induction false} SumRow<X, Y>(a: X, t: set<Y>, F: ((X, Y)) -> real)
    ensures Sum(RowPairs(a, t), F) == RowSums(F, t)(a)
  {
    SumImage(t, (b: Y) => (a, b), F, Row(F, a));
  }

  /** A sum over pairs is the sum of its row sums. */
  lemma {:induction false} SumPairs<X, Y>(s: set<X>, t: set<Y>, F: ((X, Y)) -> real)
    ensures Sum(Pairs(s, t), F) == Sum(s, RowSums(F, t))
    decreases |s|
  {
    if s == {} {
      assert Pairs(s, t) == {};
    } else {
      var a := Pick(s);
      var rest := Pairs(s - {a}, t);
      assert Sum(Pairs(s, t), F) == Sum(rest, F) + Sum(RowPairs(a, t), F) by {
        PairsSplit(s, t, a);
        SumUnion(rest, RowPairs(a, t), F);
      }
      assert Sum(RowPairs(a, t), F) == RowSums(F, t)(a) by { SumRow(a, t, F); }
      assert Sum(rest, F) == Sum(s - {a}, RowSums(F, t)) by { SumPairs(s - {a}, t, F); }
      assert Sum(s, RowSums(F, t)) == RowSums(F, t)(a) + Sum(s - {a}, RowSums(F, t)) by {
        SumRemove(s, RowSums(F, t), a);
      }
    }
  }

  /** The order of a double sum can be exchanged. */
  lemma SumSwap<X, Y>(s: set<X>, t: set<Y>, F: ((X, Y)) -> real)
    ensures Sum(s, RowSums(F, t)) == Sum(t, RowSums(Swapped(F), s))
  {
    forall p: (Y, X) ensures p in Pairs(t, s) <==> p in Image(Pairs(s, t), Swap) {
      PairsMember(t, s, p.0, p.1);
      PairsMember(s, t, p.1, p.0);
      if p in Pairs(t, s) {
        assert Swap((p.1, p.0)) == p;
      }
    }
    assert Pairs(t, s) == Image(Pairs(s, t), Swap);
    forall x, y | x in Pairs(s, t) && y in Pairs(s, t) && Swap(x) == Swap(y) ensures x == y {
    }
    SumImage(Pairs(s, t), Swap, Swapped(F), F);
    SumPairs(s, t, F);
    SumPairs(t, s, Swapped(F));
  }

  lemma MulCommutes(x: real, y: real)
    ensures x * y == y * x
  {
  }

  /** `p => f(p.0) * g(p.1)`: the weight of a pair of independent draws. */
  ghost function Product<X, Y>(f: X -> real, g: Y -> real): ((X, Y)) -> real
  {
    (p: (X, Y)) => f(p.0) * g(p.1)
  }

  /** The sum of a product of independent factors is the product of the sums. */
  lemma {:induction false} SumPairsProduct<X, Y>(s: set<X>, t: set<Y>, f: X -> real, g: Y -> real)
    ensures Sum(Pairs(s, t), Product(f, g)) == Sum(s, f) * Sum(t, g)
  {
    var G := Sum(t, g);
    SumPairs(s, t, Product(f, g));
    forall a | a in s
      ensures RowSums(Product(f, g), t)(a) == G * f(a)
    {
      RowOfProduct(f, g, t, a);
    }
    SumScale(s, f, G, RowSums(Product(f, g), t));
    ProductChain(Sum(Pairs(s, t), Product(f, g)), Sum(s, RowSums(Product(f, g), t)), G, Sum(s, f));
  }

  lemma ProductChain(p: real, r: real, g: real, s: real)
    requires p == r && r == g * s
    ensures p == s * g
  {
  }

  /** A row of a product sums to its factor times the sum of the other. */
  lemma RowOfProduct<X, Y>(f: X -> real, g: Y -> real, t: set<Y>, a: X)
    ensures RowSums(Product(f, g), t)(a) == Sum(t, g) * f(a)
  {
    forall b | b in t
      ensures Row(Product(f, g), a)(b) == f(a) * g(b)
    {
    }
    SumScale(t, g, f(a), Row(Product(f, g), a));
    MulCommutes(f(a), Sum(t, g));
  }

  lemma {:induction false} IntRangeSnoc(lo: int, hi: int)
    requires lo <= hi
    ensures hi !in IntRange(lo, hi)
    ensures IntRange(lo, hi + 1) == IntRange(lo, hi) + {hi}
  {
    IntRangeMember(lo, hi);
    IntRangeMember(lo, hi + 1);
    forall x ensures x in IntRange(lo, hi + 1) <==> x in IntRange(lo, hi) + {hi} {
    }
  }

  lemma {:induction false} IntRangeSize(lo: int, hi: int)
    requires lo <= hi
    ensures |IntRange(lo, hi)| == hi - lo
    decreases hi - lo
  {
    if lo < hi {
      IntRangeMember(lo + 1, hi);
      assert lo !in IntRange(lo + 1, hi);
      IntRangeSize(lo + 1, hi);
    }
  }

  /** A sum over an integer interval is the range sum taken in order. */
  lemma {:induction false} SumIntRange(lo: int, hi: int, f: int -> real)
    ensures Sum(IntRange(lo, hi), f) == RangeSum(lo, hi, f)
    decreases hi - lo
  {
    if lo < hi {
      IntRangeMember(lo + 1, hi);
      assert IntRange(lo, hi) == IntRange(lo + 1, hi) + {lo};
      SumInsert(IntRange(lo + 1, hi), f, lo);
      SumIntRange(lo + 1, hi, f);
    }
  }

  /** Adding the term at the top of a range. */
  lemma {:induction false} RangeSumLast(lo: int, hi: int, f: int -> real)
    requires lo <= hi
    ensures RangeSum(lo, hi + 1, f) == RangeSum(lo, hi, f) + f(hi)
    decreases hi - lo
  {
    if lo < hi {
      RangeSumLast(lo + 1, hi, f);
    }
  }

  /** Shifting the index of a range sum. */
  lemma {:induction false} RangeSumShift(lo: int, hi: int, d: int, f: int -> real, g: int -> real)
    requires forall x :: lo <= x < hi ==> g(x) == f(x + d)
    ensures RangeSum(lo, hi, g) == RangeSum(lo + d, hi + d, f)
    decreases hi - lo
  {
    if lo < hi {
      RangeSumShift(lo + 1, hi, d, f, g);
    }
  }
}
