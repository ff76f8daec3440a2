/** Natural powers of a real and the inequalities the mass bounds use. */
module RealPowers {
  import opened Laws

  function RPow(x: real, n: nat): real
  {
    if n == 0 then 1.0 else x * RPow(x, n - 1)
  }

  lemma {:induction false} RPowNonNeg(x: real, n: nat)
    requires 0.0 <= x
    ensures 0.0 <= RPow(x, n)
  {
    if n > 0 {
      RPowNonNeg(x, n - 1);
      MulNonNeg(x, RPow(x, n - 1));
    }
  }

  lemma {:induction false} RPowAdd(x: real, m: nat, n: nat)
    ensures RPow(x, m) * RPow(x, n) == RPow(x, m + n)
    decreases n
  {
    if n > 0 {
      RPowAdd(x, m, n - 1);
      calc {
        RPow(x, m) * RPow(x, n);
        RPow(x, m) * (x * RPow(x, n - 1));
        x * (RPow(x, m) * RPow(x, n - 1));
      }
    }
  }

  lemma RPowIndex(x: real, a: nat, b: nat)
    requires a == b
    ensures RPow(x, a) == RPow(x, b)
  {
  }

  lemma PowTimes(x: real, m: real, k: nat)
    requires x == RPow(m, k)
    ensures x * m == RPow(m, k + 1)
  {
  }

  lemma SquareLe(t: real, x: real, p: real)
    requires t <= x * x && 0.0 <= x <= p
    ensures t <= p * p
  {
    assert x * x <= x * p;
    assert x * p <= p * p;
  }

  lemma ScaleLe(t: real, s: real, p: real, m: real)
    requires t <= s * m && s <= p && 0.0 <= m
    ensures t <= p * m
  {
    assert s * m <= p * m;
  }

  /** Squaring keeps a bound `m^v` as `m^(v+v)`. */
  lemma BoundSquare(t: real, x: real, m: real, v: nat)
    requires t <= x * x && 0.0 <= x <= RPow(m, v)
    ensures t <= RPow(m, v + v)
  {
    SquareLe(t, x, RPow(m, v));
    RPowAdd(m, v, v);
  }

  /** Scaling by `m` turns a bound `m^w` into `m^(w+1)`. */
  lemma BoundTimes(t: real, s: real, m: real, w: nat)
    requires t <= s * m && 0.0 <= m && s <= RPow(m, w)
    ensures t <= RPow(m, w + 1)
  {
    ScaleLe(t, s, RPow(m, w), m);
    PowTimes(RPow(m, w), m, w);
  }
}
