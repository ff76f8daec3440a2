/** The joint tables of the three-part schemes: the law of a quadratic form
    in two independent draws `a1`, `a2` from a law `A` and two independent
    draws `b1`, `b2` from a law `B`, filled by four nested loops
    (`build_table1`, `build_table2`, `build_re_table1`, `build_re_table2`,
    `build_se_table1`, `build_se_table2`). */
module Tables {
  import opened Sums
  import opened Laws

  /** A draw ((a1, a2), (b1, b2)). */
  type Quad = ((int, int), (int, int))

  ghost function Quads(A: Law, B: Law): set<Quad>
  {
    Pairs(Pairs(A.Keys, A.Keys), Pairs(B.Keys, B.Keys))
  }

  /** `p1 * p2 * p3 * p4`: the weight of a draw. */
  ghost function QuadWeight(A: Law, B: Law): Quad -> real
  {
    Product(PairWeight(A, A), PairWeight(B, B))
  }

  /** The law of `key(a1, a2, b1, b2)`. */
  ghost function Table(A: Law, B: Law, key: Quad -> int): Law
  {
    Accumulate(Quads(A, B), key, QuadWeight(A, B))
  }

  /** `a1*a2 + b1*b2`: the value of the first tables. */
  function SquareKey(e: Quad): int
  {
    e.0.0 * e.0.1 + e.1.0 * e.1.1
  }

  /** `(a1*b1) + b2*(a1 + a2)`: the value of the second tables. */
  function CrossKey(e: Quad): int
  {
    e.0.0 * e.1.0 + e.1.1 * (e.0.0 + e.0.1)
  }

  lemma QuadMember(A: Law, B: Law, e: Quad)
    ensures e in Quads(A, B) <==> e.0.0 in A && e.0.1 in A && e.1.0 in B && e.1.1 in B
  {
    PairsMember(Pairs(A.Keys, A.Keys), Pairs(B.Keys, B.Keys), e.0, e.1);
    PairsMember(A.Keys, A.Keys, e.0.0, e.0.1);
    PairsMember(B.Keys, B.Keys, e.1.0, e.1.1);
  }

  lemma QuadWeightAt(A: Law, B: Law, a1: int, a2: int, b1: int, b2: int)
    requires a1 in A && a2 in A && b1 in B && b2 in B
    ensures QuadWeight(A, B)(((a1, a2), (b1, b2))) == A[a1] * A[a2] * B[b1] * B[b2]
  {
  }

  // ---------------------------------------------------------------------
  // The four nested loops

  /** Where the loops stand: the values `D1` of `a1` already done; for
      `a1 = x1` the values `D2` of `a2` done; for `a2 = x2` the values `D3`
      of `b1` done; for `b1 = y1` the values `D4` of `b2` done. */
  datatype Cursor = Cursor(D1: set<int>, x1: int, D2: set<int>, x2: int, D3: set<int>, y1: int, D4: set<int>)

  ghost predicate Visited(e: Quad, c: Cursor)
  {
    || e.0.0 in c.D1
    || (e.0.0 == c.x1 && e.0.1 in c.D2)
    || (e.0.0 == c.x1 && e.0.1 == c.x2 && e.1.0 in c.D3)
    || (e.0.0 == c.x1 && e.0.1 == c.x2 && e.1.0 == c.y1 && e.1.1 in c.D4)
  }

  /** The draws visited so far. */
  ghost function Seen(A: Law, B: Law, c: Cursor): set<Quad>
  {
    set e | e in Quads(A, B) && Visited(e, c)
  }

  /** The cursor of the outermost loop. */
  function Outer(D1: set<int>): Cursor
  {
    Cursor(D1, 0, {}, 0, {}, 0, {})
  }

  lemma {:induction false} OuterStart(A: Law, B: Law)
    ensures Seen(A, B, Outer({})) == {}
  {
  }

  lemma {:induction false} OuterEnd(A: Law, B: Law)
    ensures Seen(A, B, Outer(A.Keys)) == Quads(A, B)
  {
    forall e | e in Quads(A, B) ensures Visited(e, Outer(A.Keys)) {
      QuadMember(A, B, e);
    }
  }

  lemma {:induction false} SecondOpen(A: Law, B: Law, D1: set<int>, a1: int)
    ensures Seen(A, B, Cursor(D1, a1, {}, 0, {}, 0, {})) == Seen(A, B, Outer(D1))
  {
  }

  lemma {:induction false} SecondClose(A: Law, B: Law, D1: set<int>, a1: int)
    ensures Seen(A, B, Cursor(D1, a1, A.Keys, 0, {}, 0, {})) == Seen(A, B, Outer(D1 + {a1}))
  {
    forall e | e in Quads(A, B)
      ensures Visited(e, Cursor(D1, a1, A.Keys, 0, {}, 0, {})) <==> Visited(e, Outer(D1 + {a1}))
    {
      QuadMember(A, B, e);
    }
  }

  lemma {:induction false} ThirdOpen(A: Law, B: Law, D1: set<int>, a1: int, D2: set<int>, a2: int)
    ensures Seen(A, B, Cursor(D1, a1, D2, a2, {}, 0, {})) == Seen(A, B, Cursor(D1, a1, D2, 0, {}, 0, {}))
  {
  }

  lemma {:induction false} ThirdClose(A: Law, B: Law, D1: set<int>, a1: int, D2: set<int>, a2: int)
    ensures Seen(A, B, Cursor(D1, a1, D2, a2, B.Keys, 0, {})) == Seen(A, B, Cursor(D1, a1, D2 + {a2}, 0, {}, 0, {}))
  {
    forall e | e in Quads(A, B)
      ensures Visited(e, Cursor(D1, a1, D2, a2, B.Keys, 0, {})) <==> Visited(e, Cursor(D1, a1, D2 + {a2}, 0, {}, 0, {}))
    {
      QuadMember(A, B, e);
    }
  }

  lemma {:induction false} FourthOpen(A: Law, B: Law, D1: set<int>, a1: int, D2: set<int>, a2: int, D3: set<int>, b1: int)
    ensures Seen(A, B, Cursor(D1, a1, D2, a2, D3, b1, {})) == Seen(A, B, Cursor(D1, a1, D2, a2, D3, 0, {}))
  {
  }

  lemma {:induction false} FourthClose(A: Law, B: Law, D1: set<int>, a1: int, D2: set<int>, a2: int, D3: set<int>, b1: int)
    ensures Seen(A, B, Cursor(D1, a1, D2, a2, D3, b1, B.Keys)) == Seen(A, B, Cursor(D1, a1, D2, a2, D3 + {b1}, 0, {}))
  {
    forall e | e in Quads(A, B)
      ensures Visited(e, Cursor(D1, a1, D2, a2, D3, b1, B.Keys)) <==> Visited(e, Cursor(D1, a1, D2, a2, D3 + {b1}, 0, {}))
    {
      QuadMember(A, B, e);
    }
  }

  /** Visiting one more `b2` adds one new draw. */
  lemma {:induction false} FourthStep(A: Law, B: Law, D1: set<int>, a1: int, D2: set<int>, a2: int,
                                      D3: set<int>, b1: int, rest: set<int>, b2: int)
    requires a1 in A && a1 !in D1 && a2 in A && a2 !in D2 && b1 in B && b1 !in D3
    requires b2 in rest && rest <= B.Keys
    ensures ((a1, a2), (b1, b2)) !in Seen(A, B, Cursor(D1, a1, D2, a2, D3, b1, B.Keys - rest))
    ensures Seen(A, B, Cursor(D1, a1, D2, a2, D3, b1, B.Keys - (rest - {b2})))
         == Seen(A, B, Cursor(D1, a1, D2, a2, D3, b1, B.Keys - rest)) + {((a1, a2), (b1, b2))}
  {
    var e0 := ((a1, a2), (b1, b2));
    QuadMember(A, B, e0);
    forall e
      ensures e in Seen(A, B, Cursor(D1, a1, D2, a2, D3, b1, B.Keys - (rest - {b2})))
          <==> e in Seen(A, B, Cursor(D1, a1, D2, a2, D3, b1, B.Keys - rest)) + {e0}
    {
      QuadMember(A, B, e);
    }
  }

  /** The table after the draws the cursor has visited. */
  ghost function Filled(A: Law, B: Law, key: Quad -> int, c: Cursor): Law
  {
    Accumulate(Seen(A, B, c), key, QuadWeight(A, B))
  }

  /** One pass of the innermost body: `law[val] += p1 * p2 * p3 * p4`. */
  lemma {:induction false} FourthFill(A: Law, B: Law, key: Quad -> int, C: Law, D1: set<int>, a1: int,
                                      D2: set<int>, a2: int, D3: set<int>, b1: int, rest: set<int>, b2: int)
    requires a1 in A && a1 !in D1 && a2 in A && a2 !in D2 && b1 in B && b1 !in D3
    requires b2 in rest && rest <= B.Keys
    requires C == Filled(A, B, key, Cursor(D1, a1, D2, a2, D3, b1, B.Keys - rest))
    ensures Add(C, key(((a1, a2), (b1, b2))), A[a1] * A[a2] * B[b1] * B[b2])
         == Filled(A, B, key, Cursor(D1, a1, D2, a2, D3, b1, B.Keys - (rest - {b2})))
  {
    FourthStep(A, B, D1, a1, D2, a2, D3, b1, rest, b2);
    QuadWeightAt(A, B, a1, a2, b1, b2);
    FillStep(C, Seen(A, B, Cursor(D1, a1, D2, a2, D3, b1, B.Keys - rest)), key, QuadWeight(A, B),
             ((a1, a2), (b1, b2)), A[a1] * A[a2] * B[b1] * B[b2]);
  }

  lemma FourthBegin(A: Law, B: Law, key: Quad -> int, C: Law, D1: set<int>, a1: int,
                    D2: set<int>, a2: int, D3: set<int>, b1: int)
    requires C == Filled(A, B, key, Cursor(D1, a1, D2, a2, D3, 0, {}))
    ensures C == Filled(A, B, key, Cursor(D1, a1, D2, a2, D3, b1, B.Keys - B.Keys))
  {
    assert B.Keys - B.Keys == {};
    FourthOpen(A, B, D1, a1, D2, a2, D3, b1);
  }

  lemma FourthEnd(A: Law, B: Law, key: Quad -> int, C: Law, D1: set<int>, a1: int,
                  D2: set<int>, a2: int, D3: set<int>, b1: int, rest: set<int>)
    requires rest == {}
    requires C == Filled(A, B, key, Cursor(D1, a1, D2, a2, D3, b1, B.Keys - rest))
    ensures C == Filled(A, B, key, Cursor(D1, a1, D2, a2, D3 + {b1}, 0, {}))
  {
    assert B.Keys - rest == B.Keys;
    FourthClose(A, B, D1, a1, D2, a2, D3, b1);
  }

  /** The innermost loop: `for b2, p4 in B.items()`. */
  method FillFourth(A: Law, B: Law, key: Quad -> int, C0: Law,
                    ghost D1: set<int>, a1: int, ghost D2: set<int>, a2: int, ghost D3: set<int>, b1: int)
    returns (C: Law)
    requires a1 in A && a1 !in D1 && a2 in A && a2 !in D2 && b1 in B && b1 !in D3
    requires C0 == Filled(A, B, key, Cursor(D1, a1, D2, a2, D3, 0, {}))
    ensures C == Filled(A, B, key, Cursor(D1, a1, D2, a2, D3 + {b1}, 0, {}))
  {
    C := C0;
    var rest := B.Keys;
    FourthBegin(A, B, key, C, D1, a1, D2, a2, D3, b1);
    while rest != {}
      invariant rest <= B.Keys
      invariant C == Filled(A, B, key, Cursor(D1, a1, D2, a2, D3, b1, B.Keys - rest))
      decreases |rest|
    {
      ghost var some := Pick(rest);
      var b2 :| b2 in rest;
      FourthFill(A, B, key, C, D1, a1, D2, a2, D3, b1, rest, b2);
      C := Add(C, key(((a1, a2), (b1, b2))), A[a1] * A[a2] * B[b1] * B[b2]);
      rest := rest - {b2};
    }
    FourthEnd(A, B, key, C, D1, a1, D2, a2, D3, b1, rest);
  }

  lemma ThirdBegin(A: Law, B: Law, key: Quad -> int, C: Law, D1: set<int>, a1: int, D2: set<int>, a2: int)
    requires C == Filled(A, B, key, Cursor(D1, a1, D2, 0, {}, 0, {}))
    ensures C == Filled(A, B, key, Cursor(D1, a1, D2, a2, B.Keys - B.Keys, 0, {}))
  {
    assert B.Keys - B.Keys == {};
    ThirdOpen(A, B, D1, a1, D2, a2);
  }

  lemma ThirdAdvance(A: Law, B: Law, key: Quad -> int, C: Law, D1: set<int>, a1: int, D2: set<int>, a2: int,
                     rest: set<int>, b1: int)
    requires b1 in rest && rest <= B.Keys
    requires C == Filled(A, B, key, Cursor(D1, a1, D2, a2, (B.Keys - rest) + {b1}, 0, {}))
    ensures C == Filled(A, B, key, Cursor(D1, a1, D2, a2, B.Keys - (rest - {b1}), 0, {}))
  {
    assert (B.Keys - rest) + {b1} == B.Keys - (rest - {b1});
  }

  lemma ThirdEnd(A: Law, B: Law, key: Quad -> int, C: Law, D1: set<int>, a1: int, D2: set<int>, a2: int,
                 rest: set<int>)
    requires rest == {}
    requires C == Filled(A, B, key, Cursor(D1, a1, D2, a2, B.Keys - rest, 0, {}))
    ensures C == Filled(A, B, key, Cursor(D1, a1, D2 + {a2}, 0, {}, 0, {}))
  {
    assert B.Keys - rest == B.Keys;
    ThirdClose(A, B, D1, a1, D2, a2);
  }

  /** `for b1, p3 in B.items()`. */
  method FillThird(A: Law, B: Law, key: Quad -> int, C0: Law,
                   ghost D1: set<int>, a1: int, ghost D2: set<int>, a2: int)
    returns (C: Law)
    requires a1 in A && a1 !in D1 && a2 in A && a2 !in D2
    requires C0 == Filled(A, B, key, Cursor(D1, a1, D2, 0, {}, 0, {}))
    ensures C == Filled(A, B, key, Cursor(D1, a1, D2 + {a2}, 0, {}, 0, {}))
  {
    C := C0;
    var rest := B.Keys;
    ThirdBegin(A, B, key, C, D1, a1, D2, a2);
    while rest != {}
      invariant rest <= B.Keys
      invariant C == Filled(A, B, key, Cursor(D1, a1, D2, a2, B.Keys - rest, 0, {}))
      decreases |rest|
    {
      ghost var some := Pick(rest);
      var b1 :| b1 in rest;
      C := FillFourth(A, B, key, C, D1, a1, D2, a2, B.Keys - rest, b1);
      ThirdAdvance(A, B, key, C, D1, a1, D2, a2, rest, b1);
      rest := rest - {b1};
    }
    ThirdEnd(A, B, key, C, D1, a1, D2, a2, rest);
  }

  lemma SecondBegin(A: Law, B: Law, key: Quad -> int, C: Law, D1: set<int>, a1: int)
    requires C == Filled(A, B, key, Outer(D1))
    ensures C == Filled(A, B, key, Cursor(D1, a1, A.Keys - A.Keys, 0, {}, 0, {}))
  {
    assert A.Keys - A.Keys == {};
    SecondOpen(A, B, D1, a1);
  }

  lemma SecondAdvance(A: Law, B: Law, key: Quad -> int, C: Law, D1: set<int>, a1: int, rest: set<int>, a2: int)
    requires a2 in rest && rest <= A.Keys
    requires C == Filled(A, B, key, Cursor(D1, a1, (A.Keys - rest) + {a2}, 0, {}, 0, {}))
    ensures C == Filled(A, B, key, Cursor(D1, a1, A.Keys - (rest - {a2}), 0, {}, 0, {}))
  {
    assert (A.Keys - rest) + {a2} == A.Keys - (rest - {a2});
  }

  lemma SecondEnd(A: Law, B: Law, key: Quad -> int, C: Law, D1: set<int>, a1: int, rest: set<int>)
    requires rest == {}
    requires C == Filled(A, B, key, Cursor(D1, a1, A.Keys - rest, 0, {}, 0, {}))
    ensures C == Filled(A, B, key, Outer(D1 + {a1}))
  {
    assert A.Keys - rest == A.Keys;
    SecondClose(A, B, D1, a1);
  }

  /** `for a2, p2 in A.items()`. */
  method FillSecond(A: Law, B: Law, key: Quad -> int, C0: Law, ghost D1: set<int>, a1: int)
    returns (C: Law)
    requires a1 in A && a1 !in D1
    requires C0 == Filled(A, B, key, Outer(D1))
    ensures C == Filled(A, B, key, Outer(D1 + {a1}))
  {
    C := C0;
    var rest := A.Keys;
    SecondBegin(A, B, key, C, D1, a1);
    while rest != {}
      invariant rest <= A.Keys
      invariant C == Filled(A, B, key, Cursor(D1, a1, A.Keys - rest, 0, {}, 0, {}))
      decreases |rest|
    {
      ghost var some := Pick(rest);
      var a2 :| a2 in rest;
      C := FillThird(A, B, key, C, D1, a1, A.Keys - rest, a2);
      SecondAdvance(A, B, key, C, D1, a1, rest, a2);
      rest := rest - {a2};
    }
    SecondEnd(A, B, key, C, D1, a1, rest);
  }

  lemma OuterBegin(A: Law, B: Law, key: Quad -> int)
    ensures map[] == Filled(A, B, key, Outer(A.Keys - A.Keys))
  {
    assert A.Keys - A.Keys == {};
    OuterStart(A, B);
    AccumulateEmpty(key, QuadWeight(A, B));
  }

  lemma OuterAdvance(A: Law, B: Law, key: Quad -> int, C: Law, rest: set<int>, a1: int)
    requires a1 in rest && rest <= A.Keys
    requires C == Filled(A, B, key, Outer((A.Keys - rest) + {a1}))
    ensures C == Filled(A, B, key, Outer(A.Keys - (rest - {a1})))
  {
    assert (A.Keys - rest) + {a1} == A.Keys - (rest - {a1});
  }

  lemma OuterFinish(A: Law, B: Law, key: Quad -> int, C: Law, rest: set<int>)
    requires rest == {}
    requires C == Filled(A, B, key, Outer(A.Keys - rest))
    ensures C == Table(A, B, key)
  {
    assert A.Keys - rest == A.Keys;
    OuterEnd(A, B);
  }

  /** The four nested loops: `law[key(a1, a2, b1, b2)] += p1 * p2 * p3 * p4`
      for every `a1`, `a2` in `A` and `b1`, `b2` in `B`. */
  method FillTable(A: Law, B: Law, key: Quad -> int) returns (C: Law)
    ensures C == Table(A, B, key)
  {
    C := map[];
    var rest := A.Keys;
    OuterBegin(A, B, key);
    while rest != {}
      invariant rest <= A.Keys
      invariant C == Filled(A, B, key, Outer(A.Keys - rest))
      decreases |rest|
    {
      ghost var some := Pick(rest);
      var a1 :| a1 in rest;
      C := FillSecond(A, B, key, C, A.Keys - rest, a1);
      OuterAdvance(A, B, key, C, rest, a1);
      rest := rest - {a1};
    }
    OuterFinish(A, B, key, C, rest);
  }
}
