/** The dictionary-filling loops of the engine (`law_convolution`,
    `law_product`, `clean_dist`), each proved to compute its specification
    function from module Laws. */
module Engine {
  import opened Sums
  import opened Laws

  /** The pairs visited by the double loop: every row of `done`, and the
      part of the row of `a` outside `rest`. */
  ghost function Visited(done: set<int>, T: set<int>, a: int, rest: set<int>): set<(int, int)>
  {
    Pairs(done, T) + Pairs({a}, T - rest)
  }

  lemma PairsEmpty(S: set<int>, T: set<int>)
    requires S == {} || T == {}
    ensures Pairs(S, T) == {}
  {
    forall p | p in Pairs(S, T) ensures false {
      PairsComponents(S, T);
    }
  }

  lemma {:induction false} VisitedStart(done: set<int>, T: set<int>, a: int)
    ensures Visited(done, T, a, T) == Pairs(done, T)
  {
    assert T - T == {};
    PairsEmpty({a}, T - T);
  }

  lemma {:induction false} VisitedEnd(done: set<int>, T: set<int>, a: int)
    ensures Visited(done, T, a, {}) == Pairs(done + {a}, T)
  {
    assert T - {} == T;
    forall p ensures p in Visited(done, T, a, {}) <==> p in Pairs(done + {a}, T) {
      PairsMember(done, T, p.0, p.1);
      PairsMember({a}, T, p.0, p.1);
      PairsMember(done + {a}, T, p.0, p.1);
    }
  }

  lemma {:induction false} VisitedStep(done: set<int>, T: set<int>, a: int, rest: set<int>, b: int)
    requires a !in done && b in rest && rest <= T
    ensures (a, b) !in Visited(done, T, a, rest)
    ensures Visited(done, T, a, rest - {b}) == Visited(done, T, a, rest) + {(a, b)}
  {
    PairsMember(done, T, a, b);
    PairsMember({a}, T - rest, a, b);
    forall p ensures p in Pairs({a}, T - (rest - {b})) <==> p in Pairs({a}, T - rest) + {(a, b)} {
      PairsMember({a}, T - (rest - {b}), p.0, p.1);
      PairsMember({a}, T - rest, p.0, p.1);
    }
  }

  lemma {:induction false} RowStep(A: Law, B: Law, key: ((int, int)) -> int, C: Law,
                                    done: set<int>, a: int, rest: set<int>, b: int)
    requires a in A && a !in done && b in rest && rest <= B.Keys
    requires C == Accumulate(Visited(done, B.Keys, a, rest), key, PairWeight(A, B))
    ensures Add(C, key((a, b)), A[a] * B[b])
         == Accumulate(Visited(done, B.Keys, a, rest - {b}), key, PairWeight(A, B))
  {
    VisitedStep(done, B.Keys, a, rest, b);
    PairWeightAt(A, B, a, b);
    FillStep(C, Visited(done, B.Keys, a, rest), key, PairWeight(A, B), (a, b), A[a] * B[b]);
  }

  /** The inner loop of `law_convolution` / `law_product`: add the row of `a`
      to `C`. */
  method FillRow(A: Law, B: Law, key: ((int, int)) -> int, C0: Law, a: int, ghost done: set<int>)
    returns (C: Law)
    requires a in A && a !in done
    requires C0 == Accumulate(Pairs(done, B.Keys), key, PairWeight(A, B))
    ensures C == Accumulate(Pairs(done + {a}, B.Keys), key, PairWeight(A, B))
  {
    C := C0;
    var rest := B.Keys;
    VisitedStart(done, B.Keys, a);
    while rest != {}
      invariant rest <= B.Keys
      invariant C == Accumulate(Visited(done, B.Keys, a, rest), key, PairWeight(A, B))
      decreases |rest|
    {
      ghost var some := Pick(rest);
      var b :| b in rest;
      RowStep(A, B, key, C, done, a, rest, b);
      C := Add(C, key((a, b)), A[a] * B[b]);
      rest := rest - {b};
    }
    VisitedEnd(done, B.Keys, a);
  }

  /** The double loop shared by `law_convolution` and `law_product`:
      `C[key(a, b)] = C.get(key(a, b), 0) + A[a] * B[b]` for every `a` in `A`
      and `b` in `B`. */
  method FillPairwise(A: Law, B: Law, key: ((int, int)) -> int) returns (C: Law)
    ensures C == Accumulate(Pairs(A.Keys, B.Keys), key, PairWeight(A, B))
  {
    C := map[];
    ghost var done: set<int> := {};
    var rest := A.Keys;
    PairsEmpty(done, B.Keys);
    AccumulateEmpty(key, PairWeight(A, B));
    while rest != {}
      invariant rest !! done && rest + done == A.Keys
      invariant C == Accumulate(Pairs(done, B.Keys), key, PairWeight(A, B))
      decreases |rest|
    {
      ghost var some := Pick(rest);
      var a :| a in rest;
      C := FillRow(A, B, key, C, a, done);
      rest := rest - {a};
      done := done + {a};
    }
  }

  /** `law_convolution`: the law of `X + Y` for independent `X ~ A`, `Y ~ B`. */
  method LawConvolution(A: Law, B: Law) returns (C: Law)
    ensures C == Conv(A, B)
  {
    C := FillPairwise(A, B, AddKey);
  }

  /** `law_product`: the law of `X * Y` for independent `X ~ A`, `Y ~ B`. */
  method LawProduct(A: Law, B: Law) returns (C: Law)
    ensures C == Prod(A, B)
  {
    C := FillPairwise(A, B, MulKey);
  }

  /** `clean_dist`: copy the entries whose mass exceeds 2^-300. */
  method CleanDist(A: Law) returns (B: Law)
    ensures B == Clean(A)
  {
    B := map[];
    var rest := A.Keys;
    while rest != {}
      invariant rest <= A.Keys
      invariant B == map x | x in A.Keys - rest && A[x] > Cutoff :: A[x]
      decreases |rest|
    {
      ghost var some := Pick(rest);
      var x :| x in rest;
      if A[x] > Cutoff {
        B := B[x := A[x]];
      }
      rest := rest - {x};
    }
  }
}
