/** Finite integer distributions and the dictionary-filling combinators of the
    engine: every law the engine builds is an accumulation of weighted
    contributions `C[key(e)] = C.get(key(e), 0) + w(e)` over a finite set of
    outcomes `e`. */
module Laws {
  import opened Sums

  /** A distribution: integer value to probability mass. */
  type Law = map<int, real>

  /** `A.get(x, 0)`. */
  function Get(A: Law, x: int): real
  {
    if x in A then A[x] else 0.0
  }

  ghost function Density(A: Law): int -> real
  {
    x => Get(A, x)
  }

  /** Total mass of a law. */
  ghost function Mass(A: Law): real
  {
    Sum(A.Keys, Density(A))
  }

  ghost predicate NonNeg(A: Law)
  {
    forall x :: x in A ==> 0.0 <= A[x]
  }

  /** The law of `-X` is the law of `X`. */
  ghost predicate Symmetric(A: Law)
  {
    forall x :: x in A ==> -x in A && A[-x] == A[x]
  }

  /** Every value lies in [-m, m]. */
  ghost predicate Bounded(A: Law, m: int)
  {
    forall x :: x in A ==> -m <= x <= m
  }

  /** `abs(i)`. */
  function Abs(i: int): nat
  {
    if i < 0 then -i else i
  }

  /** The point mass at 0, `{0: 1.0}`. */
  const Unit: Law := map[0 := 1.0]

  /** One dictionary update `C[k] = C.get(k, 0) + x`. */
  function Add(C: Law, k: int, x: real): (r: Law)
    ensures r.Keys == C.Keys + {k}
    ensures forall v :: v in r ==> r[v] == if v == k then Get(C, k) + x else C[v]
  {
    C[k := Get(C, k) + x]
  }

  ghost function Indicator<T>(key: T -> int, w: T -> real, v: int): T -> real
  {
    e => if key(e) == v then w(e) else 0.0
  }

  /** The law obtained by adding `w(e)` at `key(e)` for every `e` in `E`,
      in any order. */
  ghost function Accumulate<T>(E: set<T>, key: T -> int, w: T -> real): Law
  {
    map v | v in Image(E, key) :: Sum(E, Indicator(key, w, v))
  }

  lemma ImageInsert<T>(E: set<T>, key: T -> int, e: T)
    ensures Image(E + {e}, key) == Image(E, key) + {key(e)}
  {
  }

  lemma InImage<T, U>(E: set<T>, h: T -> U, e: T)
    requires e in E
    ensures h(e) in Image(E, h)
  {
  }

  lemma ImageMember<T>(E: set<T>, key: T -> int, v: int)
    ensures v in Image(E, key) <==> exists e :: e in E && key(e) == v
  {
  }

  lemma {:induction false} AccumulateEmpty<T>(key: T -> int, w: T -> real)
    ensures Accumulate({}, key, w) == map[]
  {
    assert Image({}, key) == {};
  }

  /** The value at `v`: the sum of the contributions of the outcomes that land on `v`. */
  lemma {:induction false} AccumulateGet<T>(E: set<T>, key: T -> int, w: T -> real, v: int)
    ensures Get(Accumulate(E, key, w), v) == Sum(E, Indicator(key, w, v))
  {
    if v !in Image(E, key) {
      forall e | e in E ensures Indicator(key, w, v)(e) == 0.0 {
      }
      SumZero(E, Indicator(key, w, v));
    }
  }

  lemma {:induction false} AccumulateInsertAt<T>(E: set<T>, key: T -> int, w: T -> real, e: T, v: int)
    requires e !in E
    ensures Get(Accumulate(E + {e}, key, w), v) == Get(Add(Accumulate(E, key, w), key(e), w(e)), v)
  {
    var f := Indicator(key, w, v);
    var C := Accumulate(E, key, w);
    assert Get(Accumulate(E + {e}, key, w), v) == Sum(E + {e}, f) by { AccumulateGet(E + {e}, key, w, v); }
    assert Sum(E + {e}, f) == f(e) + Sum(E, f) by { SumInsert(E, f, e); }
    assert Get(C, v) == Sum(E, f) by { AccumulateGet(E, key, w, v); }
  }

  /** Processing one more outcome is one dictionary update. */
  lemma {:induction false} AccumulateInsert<T>(E: set<T>, key: T -> int, w: T -> real, e: T)
    requires e !in E
    ensures Accumulate(E + {e}, key, w) == Add(Accumulate(E, key, w), key(e), w(e))
  {
    var L, C := Accumulate(E + {e}, key, w), Accumulate(E, key, w);
    var R := Add(C, key(e), w(e));
    ImageInsert(E, key, e);
    assert L.Keys == R.Keys;
    forall v ensures Get(L, v) == Get(R, v) {
      AccumulateInsertAt(E, key, w, e, v);
    }
    LawExt(L, R);
  }

  /** One `C[k] = C.get(k, 0) + x` step extends the accumulation by `e`. */
  lemma {:induction false} FillStep<T>(C: Law, E: set<T>, key: T -> int, w: T -> real, e: T, x: real)
    requires C == Accumulate(E, key, w) && e !in E && x == w(e)
    ensures Add(C, key(e), x) == Accumulate(E + {e}, key, w)
  {
    AccumulateInsert(E, key, w, e);
  }

  /** Adding `x` at one key adds `x` to the total mass. */
  lemma {:induction false} MassAdd(C: Law, k: int, x: real)
    ensures Mass(Add(C, k, x)) == Mass(C) + x
  {
    var R := Add(C, k, x);
    if k in C {
      SumRemove(C.Keys, Density(C), k);
      SumRemove(R.Keys, Density(R), k);
      assert R.Keys - {k} == C.Keys - {k};
      SumExt(C.Keys - {k}, Density(C), Density(R));
    } else {
      SumInsert(C.Keys, Density(R), k);
      assert R.Keys == C.Keys + {k};
      SumExt(C.Keys, Density(C), Density(R));
    }
  }

  /** The mass of an accumulation is the sum of all contributions. */
  lemma {:induction false} AccumulateMass<T>(E: set<T>, key: T -> int, w: T -> real)
    ensures Mass(Accumulate(E, key, w)) == Sum(E, w)
    decreases |E|
  {
    if E == {} {
      AccumulateEmpty(key, w);
    } else {
      var e :| e in E;
      var E' := E - {e};
      var C := Accumulate(E', key, w);
      assert E == E' + {e};
      assert Accumulate(E, key, w) == Add(C, key(e), w(e)) by { AccumulateInsert(E', key, w, e); }
      assert Mass(Add(C, key(e), w(e))) == Mass(C) + w(e) by { MassAdd(C, key(e), w(e)); }
      assert Mass(C) == Sum(E', w) by { AccumulateMass(E', key, w); }
      SumRemove(E, w, e);
    }
  }

  /** Renaming the outcomes along an injective map does not change the law. */
  lemma {:induction false} AccumulateReindex<T, U>(E: set<T>, h: T -> U, key: T -> int, w: T -> real,
                                                   key': U -> int, w': U -> real)
    requires forall x, y :: x in E && y in E && h(x) == h(y) ==> x == y
    requires forall e :: e in E ==> key'(h(e)) == key(e) && w'(h(e)) == w(e)
    ensures Accumulate(Image(E, h), key', w') == Accumulate(E, key, w)
  {
    var L, R := Accumulate(Image(E, h), key', w'), Accumulate(E, key, w);
    assert Image(Image(E, h), key') == Image(E, key);
    forall v | v in L ensures L[v] == R[v] {
      SumImage(E, h, Indicator(key', w', v), Indicator(key, w, v));
    }
  }

  /** A value-negating involution of the outcomes. */
  ghost predicate NegatingInvolution<T>(E: set<T>, h: T -> T, key: T -> int, w: T -> real)
  {
    forall e :: e in E ==> h(e) in E && h(h(e)) == e && key(h(e)) == -key(e) && w(h(e)) == w(e)
  }

  lemma {:induction false} InvolutionImage<T>(E: set<T>, h: T -> T, key: T -> int, w: T -> real)
    requires NegatingInvolution(E, h, key, w)
    ensures Image(E, h) == E
    ensures forall x, y :: x in E && y in E && h(x) == h(y) ==> x == y
  {
    forall e | e in E ensures e in Image(E, h) {
      InImage(E, h, h(e));
    }
  }

  lemma {:induction false} AccumulateNegatedAt<T>(E: set<T>, h: T -> T, key: T -> int, w: T -> real, v: int)
    requires NegatingInvolution(E, h, key, w)
    ensures Sum(E, Indicator(key, w, -v)) == Sum(E, Indicator(key, w, v))
  {
    InvolutionImage(E, h, key, w);
    forall x | x in E ensures Indicator(key, w, v)(x) == Indicator(key, w, -v)(h(x)) {
    }
    SumImage(E, h, Indicator(key, w, -v), Indicator(key, w, v));
  }

  /** An accumulation that a value-negating involution of the outcomes leaves
      unchanged is symmetric. */
  lemma {:induction false} AccumulateSymmetric<T>(E: set<T>, h: T -> T, key: T -> int, w: T -> real)
    requires NegatingInvolution(E, h, key, w)
    ensures Symmetric(Accumulate(E, key, w))
  {
    var C := Accumulate(E, key, w);
    forall v | v in C ensures -v in C && C[-v] == C[v] {
      var e :| e in E && key(e) == v;
      InImage(E, key, h(e));
      AccumulateNegatedAt(E, h, key, w, v);
    }
  }

  lemma {:induction false} AccumulateNonNeg<T>(E: set<T>, key: T -> int, w: T -> real)
    requires forall e :: e in E ==> 0.0 <= w(e)
    ensures NonNeg(Accumulate(E, key, w))
  {
    forall v | v in Accumulate(E, key, w) ensures 0.0 <= Accumulate(E, key, w)[v] {
      SumNonNeg(E, Indicator(key, w, v));
    }
  }

  /** Every key of an accumulation is the key of some outcome. */
  lemma {:induction false} AccumulateKeysIn<T>(E: set<T>, key: T -> int, w: T -> real, S: set<int>)
    requires forall e :: e in E ==> key(e) in S
    ensures Accumulate(E, key, w).Keys <= S
  {
  }

  /** An accumulation whose outcomes all land on `v` is a point mass at `v`. */
  lemma {:induction false} AccumulateConstKey<T>(E: set<T>, key: T -> int, w: T -> real, v: int)
    requires E != {}
    requires forall e :: e in E ==> key(e) == v
    ensures Accumulate(E, key, w) == map[v := Sum(E, w)]
  {
    var C := Accumulate(E, key, w);
    var e := Pick(E);
    InImage(E, key, e);
    assert C.Keys == {v};
    forall x | x in E ensures Indicator(key, w, v)(x) == w(x) {
    }
    SumExt(E, Indicator(key, w, v), w);
    AccumulateGet(E, key, w, v);
  }

  lemma {:induction false} AccumulateBounded<T>(E: set<T>, key: T -> int, w: T -> real, m: int)
    requires forall e :: e in E ==> -m <= key(e) <= m
    ensures Bounded(Accumulate(E, key, w), m)
  {
  }

  /* ---------------- Sum-convolution and product ---------------- */

  function AddKey(p: (int, int)): int
  {
    p.0 + p.1
  }

  function MulKey(p: (int, int)): int
  {
    p.0 * p.1
  }

  /** `p => A[p.0] * B[p.1]`: the weight of an independent pair of draws. */
  ghost function PairWeight(A: Law, B: Law): ((int, int)) -> real
  {
    Product(Density(A), Density(B))
  }

  /** The law of `X + Y` for independent `X ~ A`, `Y ~ B`. */
  lemma PairWeightAt(A: Law, B: Law, a: int, b: int)
    requires a in A && b in B
    ensures PairWeight(A, B)((a, b)) == A[a] * B[b]
  {
  }

  ghost function Conv(A: Law, B: Law): Law
  {
    Accumulate(Pairs(A.Keys, B.Keys), AddKey, PairWeight(A, B))
  }

  /** The law of `X * Y` for independent `X ~ A`, `Y ~ B`. */
  ghost function Prod(A: Law, B: Law): Law
  {
    Accumulate(Pairs(A.Keys, B.Keys), MulKey, PairWeight(A, B))
  }

  /** `a => A[a] * B[c - a]`: the classical convolution term at `c`. */
  ghost function ConvTerm(A: Law, B: Law, c: int): int -> real
  {
    a => Get(A, a) * Get(B, c - a)
  }

  lemma PairsSwap<X, Y>(s: set<X>, t: set<Y>)
    ensures Image(Pairs(s, t), Swap) == Pairs(t, s)
    ensures forall x, y :: x in Pairs(s, t) && y in Pairs(s, t) && Swap(x) == Swap(y) ==> x == y
  {
    forall p: (Y, X) ensures p in Pairs(t, s) <==> p in Image(Pairs(s, t), Swap) {
      PairsMember(t, s, p.0, p.1);
      PairsMember(s, t, p.1, p.0);
      if p in Pairs(t, s) {
        assert Swap((p.1, p.0)) == p;
      }
    }
  }

  lemma {:induction false} ConvKeys(A: Law, B: Law, c: int)
    ensures c in Conv(A, B) <==> exists a, b :: a in A && b in B && c == a + b
  {
    if c in Conv(A, B) {
      var p :| p in Pairs(A.Keys, B.Keys) && AddKey(p) == c;
    } else {
      forall a, b | a in A && b in B ensures c != a + b {
        PairsMember(A.Keys, B.Keys, a, b);
        assert AddKey((a, b)) in Image(Pairs(A.Keys, B.Keys), AddKey);
      }
    }
  }

  /** `law_convolution` computes `C[c] = sum over a of A[a] * B[c - a]`. */
  lemma {:induction false} ConvAt(A: Law, B: Law, c: int)
    ensures Get(Conv(A, B), c) == Sum(A.Keys, ConvTerm(A, B, c))
  {
    var F := Indicator(AddKey, PairWeight(A, B), c);
    var T := ConvTerm(A, B, c);
    assert Get(Conv(A, B), c) == Sum(Pairs(A.Keys, B.Keys), F) by {
      AccumulateGet(Pairs(A.Keys, B.Keys), AddKey, PairWeight(A, B), c);
    }
    assert Sum(Pairs(A.Keys, B.Keys), F) == Sum(A.Keys, RowSums(F, B.Keys)) by {
      SumPairs(A.Keys, B.Keys, F);
    }
    assert Sum(A.Keys, RowSums(F, B.Keys)) == Sum(A.Keys, T) by {
      forall a | a in A ensures RowSums(F, B.Keys)(a) == T(a) {
        ConvRow(A, B, c, a);
      }
      SumExt(A.Keys, RowSums(F, B.Keys), T);
    }
  }

  /** Within row `a`, only the column `c - a` lands on `c`. */
  lemma {:induction false} ConvRowOthers(A: Law, B: Law, c: int, a: int)
    ensures forall b :: b in B && b != c - a ==> Row(Indicator(AddKey, PairWeight(A, B), c), a)(b) == 0.0
  {
    var F := Indicator(AddKey, PairWeight(A, B), c);
    forall b | b in B && b != c - a ensures Row(F, a)(b) == 0.0 {
      assert Row(F, a)(b) == F((a, b));
      assert AddKey((a, b)) != c;
    }
  }

  lemma {:induction false} ConvRowHit(A: Law, B: Law, c: int, a: int)
    ensures Row(Indicator(AddKey, PairWeight(A, B), c), a)(c - a) == Get(A, a) * Get(B, c - a)
  {
    var F := Indicator(AddKey, PairWeight(A, B), c);
    assert Row(F, a)(c - a) == F((a, c - a));
    assert AddKey((a, c - a)) == c;
    assert F((a, c - a)) == PairWeight(A, B)((a, c - a));
  }

  lemma {:induction false} ConvRow(A: Law, B: Law, c: int, a: int)
    ensures RowSums(Indicator(AddKey, PairWeight(A, B), c), B.Keys)(a) == ConvTerm(A, B, c)(a)
  {
    var R := Row(Indicator(AddKey, PairWeight(A, B), c), a);
    var t := Get(A, a) * Get(B, c - a);
    assert ConvTerm(A, B, c)(a) == t;
    ConvRowOthers(A, B, c, a);
    if c - a in B {
      ConvRowHit(A, B, c, a);
      SumOneTerm(B.Keys, R, c - a);
    } else {
      assert t == 0.0;
      SumZero(B.Keys, R);
    }
  }

  lemma MulCongruence(z: real, x1: real, x2: real, y1: real, y2: real)
    requires z == x1 * x2 && x1 == y1 && x2 == y2
    ensures z == y1 * y2
  {
  }

  lemma {:induction false} PairsMass(A: Law, B: Law)
    ensures Sum(Pairs(A.Keys, B.Keys), PairWeight(A, B)) == Mass(A) * Mass(B)
  {
    SumPairsProduct(A.Keys, B.Keys, Density(A), Density(B));
    MulCongruence(Sum(Pairs(A.Keys, B.Keys), PairWeight(A, B)),
                  Sum(A.Keys, Density(A)), Sum(B.Keys, Density(B)), Mass(A), Mass(B));
  }

  /** Total mass is multiplicative under convolution. */
  lemma {:induction false} ConvMass(A: Law, B: Law)
    ensures Mass(Conv(A, B)) == Mass(A) * Mass(B)
  {
    var E := Pairs(A.Keys, B.Keys);
    assert Mass(Conv(A, B)) == Sum(E, PairWeight(A, B)) by { AccumulateMass(E, AddKey, PairWeight(A, B)); }
    PairsMass(A, B);
  }

  /** Total mass is multiplicative under the product law too. */
  lemma {:induction false} ProdMass(A: Law, B: Law)
    ensures Mass(Prod(A, B)) == Mass(A) * Mass(B)
  {
    var E := Pairs(A.Keys, B.Keys);
    assert Mass(Prod(A, B)) == Sum(E, PairWeight(A, B)) by { AccumulateMass(E, MulKey, PairWeight(A, B)); }
    PairsMass(A, B);
  }

  lemma {:induction false} ConvCommutes(A: Law, B: Law)
    ensures Conv(A, B) == Conv(B, A)
  {
    PairsSwap(A.Keys, B.Keys);
    AccumulateReindex(Pairs(A.Keys, B.Keys), Swap, AddKey, PairWeight(A, B), AddKey, PairWeight(B, A));
  }

  lemma {:induction false} ProdCommutes(A: Law, B: Law)
    ensures Prod(A, B) == Prod(B, A)
  {
    PairsSwap(A.Keys, B.Keys);
    AccumulateReindex(Pairs(A.Keys, B.Keys), Swap, MulKey, PairWeight(A, B), MulKey, PairWeight(B, A));
  }

  function NegBoth(p: (int, int)): (int, int)
  {
    (-p.0, -p.1)
  }

  function NegSecond(p: (int, int)): (int, int)
  {
    (p.0, -p.1)
  }

  lemma MulEq(x1: real, x2: real, y1: real, y2: real)
    requires x1 == x2 && y1 == y2
    ensures x1 * y1 == x2 * y2
  {
  }

  lemma {:induction false} NegBothStep(A: Law, B: Law, e: (int, int))
    requires Symmetric(A) && Symmetric(B) && e in Pairs(A.Keys, B.Keys)
    ensures NegBoth(e) in Pairs(A.Keys, B.Keys)
    ensures PairWeight(A, B)(NegBoth(e)) == PairWeight(A, B)(e)
  {
    PairsMember(A.Keys, B.Keys, e.0, e.1);
    PairsMember(A.Keys, B.Keys, -e.0, -e.1);
    assert PairWeight(A, B)(NegBoth(e)) == Get(A, -e.0) * Get(B, -e.1);
    assert PairWeight(A, B)(e) == Get(A, e.0) * Get(B, e.1);
    MulEq(Get(A, -e.0), Get(A, e.0), Get(B, -e.1), Get(B, e.1));
  }

  lemma {:induction false} NegSecondStep(A: Law, B: Law, e: (int, int))
    requires Symmetric(B) && e in Pairs(A.Keys, B.Keys)
    ensures NegSecond(e) in Pairs(A.Keys, B.Keys)
    ensures PairWeight(A, B)(NegSecond(e)) == PairWeight(A, B)(e)
  {
    PairsMember(A.Keys, B.Keys, e.0, e.1);
    PairsMember(A.Keys, B.Keys, e.0, -e.1);
    assert PairWeight(A, B)(NegSecond(e)) == Get(A, e.0) * Get(B, -e.1);
    assert PairWeight(A, B)(e) == Get(A, e.0) * Get(B, e.1);
    MulEq(Get(A, e.0), Get(A, e.0), Get(B, -e.1), Get(B, e.1));
  }

  /** The sum of two symmetric independent variables is symmetric. */
  lemma {:induction false} ConvSymmetric(A: Law, B: Law)
    requires Symmetric(A) && Symmetric(B)
    ensures Symmetric(Conv(A, B))
  {
    var E := Pairs(A.Keys, B.Keys);
    var w := PairWeight(A, B);
    assert NegatingInvolution(E, NegBoth, AddKey, w) by {
      forall e | e in E
        ensures NegBoth(e) in E && NegBoth(NegBoth(e)) == e && AddKey(NegBoth(e)) == -AddKey(e)
        ensures w(NegBoth(e)) == w(e)
      {
        NegBothStep(A, B, e);
      }
    }
    AccumulateSymmetric(E, NegBoth, AddKey, w);
  }

  /** The product of any variable with an independent symmetric one is symmetric. */
  lemma {:induction false} ProdSymmetric(A: Law, B: Law)
    requires Symmetric(B)
    ensures Symmetric(Prod(A, B))
  {
    var E := Pairs(A.Keys, B.Keys);
    var w := PairWeight(A, B);
    assert NegatingInvolution(E, NegSecond, MulKey, w) by {
      forall e | e in E
        ensures NegSecond(e) in E && NegSecond(NegSecond(e)) == e && MulKey(NegSecond(e)) == -MulKey(e)
        ensures w(NegSecond(e)) == w(e)
      {
        NegSecondStep(A, B, e);
      }
    }
    AccumulateSymmetric(E, NegSecond, MulKey, w);
  }

  lemma {:induction false} MassUnit()
    ensures Mass(Unit) == 1.0
  {
    SumSingleton(0, Density(Unit));
    assert Unit.Keys == {0};
  }

  lemma {:induction false} ConvUnitKeys(A: Law, c: int)
    ensures c in Conv(Unit, A) <==> c in A
  {
    ConvKeys(Unit, A, c);
    if c in A {
      assert 0 in Unit && c in A && c == 0 + c;
    }
    if c in Conv(Unit, A) {
      var a, b :| a in Unit && b in A && c == a + b;
      assert a == 0;
    }
  }

  lemma {:induction false} ConvUnitAt(A: Law, c: int)
    ensures Get(Conv(Unit, A), c) == Get(A, c)
  {
    ConvAt(Unit, A, c);
    assert Unit.Keys == {0};
    SumSingleton(0, ConvTerm(Unit, A, c));
    assert ConvTerm(Unit, A, c)(0) == Get(Unit, 0) * Get(A, c - 0);
  }

  /** Two laws with the same keys and the same densities are equal. */
  lemma LawExt(A: Law, B: Law)
    requires forall x :: x in A <==> x in B
    requires forall x :: Get(A, x) == Get(B, x)
    ensures A == B
  {
    forall x ensures x in A.Keys <==> x in B.Keys {
    }
    forall x | x in A ensures A[x] == B[x] {
      assert Get(A, x) == Get(B, x);
    }
  }

  lemma NonEmptyKey(A: Law)
    requires A != map[]
    ensures exists a :: a in A
  {
    if forall a :: a !in A {
      assert false;
    }
  }

  /** `{0: 1}` is the identity of convolution. */
  lemma {:induction false} ConvUnitLeft(A: Law)
    ensures Conv(Unit, A) == A
  {
    var C := Conv(Unit, A);
    forall c ensures c in C <==> c in A {
      ConvUnitKeys(A, c);
    }
    forall c ensures Get(C, c) == Get(A, c) {
      ConvUnitAt(A, c);
    }
    LawExt(C, A);
  }

  lemma {:induction false} ConvUnitRight(A: Law)
    ensures Conv(A, Unit) == A
  {
    ConvCommutes(A, Unit);
    ConvUnitLeft(A);
  }

  /** Multiplying by the constant 0 collapses a law to `{0: mass}`. */
  lemma {:induction false} ProdUnitKeys(A: Law)
    requires A != map[]
    ensures Prod(A, Unit).Keys == {0}
  {
    var E := Pairs(A.Keys, Unit.Keys);
    assert Unit.Keys == {0};
    forall p | p in E ensures MulKey(p) == 0 {
      PairsComponents(A.Keys, Unit.Keys);
    }
    NonEmptyKey(A);
    var a :| a in A;
    PairsMember(A.Keys, Unit.Keys, a, 0);
    InImage(E, MulKey, (a, 0));
  }

  lemma {:induction false} ProdUnitAt(A: Law)
    ensures Get(Prod(A, Unit), 0) == Mass(A)
  {
    var E := Pairs(A.Keys, Unit.Keys);
    var w := PairWeight(A, Unit);
    assert Unit.Keys == {0};
    forall p | p in E ensures Indicator(MulKey, w, 0)(p) == w(p) {
      PairsComponents(A.Keys, Unit.Keys);
    }
    SumExt(E, Indicator(MulKey, w, 0), w);
    AccumulateGet(E, MulKey, w, 0);
    PairsMass(A, Unit);
    MassUnit();
  }

  /** Multiplying by the constant 0 collapses a law to `{0: mass}`. */
  lemma {:induction false} ProdUnitRight(A: Law)
    requires A != map[]
    ensures Prod(A, Unit) == map[0 := Mass(A)]
  {
    ProdUnitKeys(A);
    ProdUnitAt(A);
  }

  lemma AddBounds(a: int, b: int, m1: int, m2: int)
    requires -m1 <= a <= m1 && -m2 <= b <= m2
    ensures -(m1 + m2) <= a + b <= m1 + m2
  {
  }

  lemma MulBounds(a: int, b: int, m1: int, m2: int)
    requires -m1 <= a <= m1 && -m2 <= b <= m2
    ensures -(m1 * m2) <= a * b <= m1 * m2
  {
    if a >= 0 && b >= 0 {
      assert a * b <= m1 * b <= m1 * m2;
    } else if a >= 0 {
      assert a * (-b) <= m1 * (-b) <= m1 * m2;
    } else if b >= 0 {
      assert (-a) * b <= m1 * b <= m1 * m2;
    } else {
      assert (-a) * (-b) <= m1 * (-b) <= m1 * m2;
    }
  }

  lemma MulNonNeg(x: real, y: real)
    requires 0.0 <= x && 0.0 <= y
    ensures 0.0 <= x * y
  {
  }

  /** A law within [-m, m] lies within any wider interval. */
  lemma BoundedWiden(A: Law, m: int, m': int)
    requires Bounded(A, m) && m <= m'
    ensures Bounded(A, m')
  {
  }

  lemma {:induction false} ConvBounded(A: Law, B: Law, m1: int, m2: int)
    requires Bounded(A, m1) && Bounded(B, m2)
    ensures Bounded(Conv(A, B), m1 + m2)
  {
    var E := Pairs(A.Keys, B.Keys);
    forall p | p in E ensures -(m1 + m2) <= AddKey(p) <= m1 + m2 {
      PairsComponents(A.Keys, B.Keys);
      AddBounds(p.0, p.1, m1, m2);
    }
    AccumulateBounded(E, AddKey, PairWeight(A, B), m1 + m2);
  }

  lemma {:induction false} ProdBounded(A: Law, B: Law, m1: int, m2: int)
    requires Bounded(A, m1) && Bounded(B, m2)
    ensures Bounded(Prod(A, B), m1 * m2)
  {
    var E := Pairs(A.Keys, B.Keys);
    forall p | p in E ensures -(m1 * m2) <= MulKey(p) <= m1 * m2 {
      PairsComponents(A.Keys, B.Keys);
      MulBounds(p.0, p.1, m1, m2);
    }
    AccumulateBounded(E, MulKey, PairWeight(A, B), m1 * m2);
  }

  lemma {:induction false} PairWeightNonNeg(A: Law, B: Law)
    requires NonNeg(A) && NonNeg(B)
    ensures forall p :: 0.0 <= PairWeight(A, B)(p)
  {
    forall p ensures 0.0 <= PairWeight(A, B)(p) {
      MulNonNeg(Get(A, p.0), Get(B, p.1));
    }
  }

  lemma {:induction false} ConvNonNeg(A: Law, B: Law)
    requires NonNeg(A) && NonNeg(B)
    ensures NonNeg(Conv(A, B))
  {
    PairWeightNonNeg(A, B);
    AccumulateNonNeg(Pairs(A.Keys, B.Keys), AddKey, PairWeight(A, B));
  }

  lemma {:induction false} ProdNonNeg(A: Law, B: Law)
    requires NonNeg(A) && NonNeg(B)
    ensures NonNeg(Prod(A, B))
  {
    PairWeightNonNeg(A, B);
    AccumulateNonNeg(Pairs(A.Keys, B.Keys), MulKey, PairWeight(A, B));
  }

  /** The pruning threshold 2^-300 of `clean_dist`. */
  const Cutoff: real := 1.0 / 2037035976334486086268445688409378161051468393665936250636140449354381299763336706183397376.0

  /** `clean_dist`: keep exactly the entries whose mass exceeds `Cutoff`. */
  function Clean(A: Law): Law
  {
    map x | x in A && A[x] > Cutoff :: A[x]
  }

  lemma CutoffPositive()
    ensures 0.0 < Cutoff
  {
  }

  lemma CountBound(r: nat, n: nat, c: real)
    requires r <= n && 0.0 <= c
    ensures r as real * c <= n as real * c
  {
  }

  /** The entries `clean_dist` drops. */
  ghost function Dropped(A: Law): set<int>
  {
    A.Keys - Clean(A).Keys
  }

  lemma {:induction false} CleanSplit(A: Law)
    ensures Mass(A) == Mass(Clean(A)) + Sum(Dropped(A), Density(A))
  {
    var C := Clean(A);
    var K := C.Keys;
    var R := Dropped(A);
    assert A.Keys == K + R && K !! R;
    SumUnion(K, R, Density(A));
    forall x | x in K ensures Density(A)(x) == Density(C)(x) {
    }
    SumExt(K, Density(A), Density(C));
  }

  lemma {:induction false} SumBetween<T>(s: set<T>, f: T -> real, c: real)
    requires forall x :: x in s ==> 0.0 <= f(x) <= c
    ensures 0.0 <= Sum(s, f) <= |s| as real * c
  {
    SumNonNeg(s, f);
    var k := (x: T) => c;
    SumMonotone(s, f, k);
    SumConst(s, k, c);
  }

  /** What `clean_dist` drops is non-negative and at most `Cutoff` per entry. */
  lemma {:induction false} DroppedMass(A: Law)
    requires NonNeg(A)
    ensures 0.0 <= Sum(Dropped(A), Density(A)) <= |A.Keys| as real * Cutoff
  {
    var R := Dropped(A);
    forall x | x in R ensures 0.0 <= Density(A)(x) <= Cutoff {
    }
    SumBetween(R, Density(A), Cutoff);
    assert R <= A.Keys;
    CutoffPositive();
    CountBound(|R|, |A.Keys|, Cutoff);
  }

  /** Pruning never adds mass, and it loses at most `Cutoff` per entry. */
  lemma {:induction false} CleanMass(A: Law)
    requires NonNeg(A)
    ensures Mass(Clean(A)) <= Mass(A) <= Mass(Clean(A)) + |A.Keys| as real * Cutoff
  {
    CleanSplit(A);
    DroppedMass(A);
  }

  /** Pruning changes nothing exactly when every mass exceeds `Cutoff`. */
  lemma {:induction false} CleanIdentity(A: Law)
    ensures Clean(A) == A <==> forall x :: x in A ==> A[x] > Cutoff
  {
    if forall x :: x in A ==> A[x] > Cutoff {
      forall x ensures x in Clean(A).Keys <==> x in A.Keys {
      }
    } else {
      var x :| x in A && A[x] <= Cutoff;
      assert x !in Clean(A);
    }
  }

  /** Pruning keeps non-negativity, symmetry and bounds. */
  lemma {:induction false} CleanPreserves(A: Law, m: int)
    ensures NonNeg(A) ==> NonNeg(Clean(A))
    ensures Symmetric(A) ==> Symmetric(Clean(A))
    ensures Bounded(A, m) ==> Bounded(Clean(A), m)
  {
  }
}
