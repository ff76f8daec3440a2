/** The parameter object of the failure modules, `SimpleNamespace(**params)`:
    named values read as attributes, two of which the 2n builders fill in
    place when they are None. */
module Params {
  import opened Outcomes
  import opened Combinatorics

  /** A parameter value: a Python int, a float, or None. */
  datatype Value = Int(i: int) | Real(r: real) | NoneValue

  type Fields = map<string, Value>

  /** `ps.name`: an AttributeError when the field is absent. */
  function Field(f: Fields, name: string): (r: Result<Value>)
    ensures r.Ok? <==> name in f
    ensures r.Ok? ==> r.value == f[name]
    ensures r.Err? ==> r.error == MissingField(name)
  {
    if name in f then Ok(f[name]) else Err(MissingField(name))
  }

  /** A value used where Python needs an int (`range`, `bin`, `%`): any
      other value raises a TypeError. */
  function AsInt(v: Value, name: string): (r: Result<int>)
    ensures r.Ok? <==> v.Int?
    ensures r.Ok? ==> v == Int(r.value)
    ensures r.Err? ==> r.error == WrongType(name)
  {
    if v.Int? then Ok(v.i) else Err(WrongType(name))
  }

  /** A value used as a number in a comparison or in float arithmetic:
      an int or a float; None raises a TypeError. */
  function AsNumber(v: Value, name: string): (r: Result<real>)
    ensures r.Ok? <==> !v.NoneValue?
    ensures v.Int? ==> r == Ok(v.i as real)
    ensures v.Real? ==> r == Ok(v.r)
    ensures r.Err? ==> r.error == WrongType(name)
  {
    match v
    case Int(i) => Ok(i as real)
    case Real(x) => Ok(x)
    case NoneValue => Err(WrongType(name))
  }

  /** `params.get(name)`: an absent key reads as None. */
  function GetOrNone(f: Fields, name: string): (v: Value)
    ensures name in f ==> v == f[name]
    ensures name !in f ==> v.NoneValue?
  {
    if name in f then f[name] else NoneValue
  }

  /** Python's `int(v)`: an int is kept, a float is truncated toward zero,
      and None raises a TypeError. */
  function Truncate(v: Value, name: string): (r: Result<int>)
    ensures r.Ok? <==> !v.NoneValue?
    ensures v.Int? ==> r == Ok(v.i)
    ensures v.Real? && v.r >= 0.0 ==> r.Ok? && 0 <= r.value && r.value as real <= v.r < r.value as real + 1.0
    ensures v.Real? && v.r < 0.0 ==> r.Ok? && r.value <= 0 && r.value as real - 1.0 < v.r <= r.value as real
    ensures r.Err? ==> r.error == WrongType(name)
  {
    match v
    case Int(i) => Ok(i)
    case Real(x) => if x >= 0.0 then Ok(x.Floor) else Ok(-((-x).Floor))
    case NoneValue => Err(WrongType(name))
  }

  function IntField(f: Fields, name: string): (r: Result<int>)
    ensures r.Ok? <==> name in f && f[name].Int?
    ensures r.Ok? ==> f[name] == Int(r.value)
  {
    var v :- Field(f, name);
    AsInt(v, name)
  }

  /** Every one of `names` is present and holds an int. */
  ghost predicate IntFields(f: Fields, names: seq<string>)
  {
    forall i :: 0 <= i < |names| ==> names[i] in f && f[names[i]].Int?
  }

  /** Field `name` holds the int `v`. */
  ghost predicate HasInt(f: Fields, name: string, v: int)
  {
    name in f && f[name] == Int(v)
  }

  /** Field `name` holds a number (int or float) equal to `t`. */
  ghost predicate HasNumber(f: Fields, name: string, t: real)
  {
    name in f && AsNumber(f[name], name) == Ok(t)
  }

  function NumField(f: Fields, name: string): (r: Result<real>)
    ensures r.Ok? <==> name in f && !f[name].NoneValue?
  {
    var v :- Field(f, name);
    AsNumber(v, name)
  }

  // ---------------------------------------------------------------------
  // 2 ** ceil(log(q, 2))

  /** The least `k` with 2^k >= q. */
  function CeilLog2(q: nat): (k: nat)
    requires q >= 1
    ensures Pow2(k) >= q
    ensures k == 0 || Pow2(k - 1) < q
    decreases q
  {
    if q == 1 then 0
    else
      var h := (q + 1) / 2;
      var k' := CeilLog2(h);
      assert Pow2(k' + 1) == 2 * Pow2(k');
      k' + 1
  }

  /** Only one exponent has both properties. */
  lemma {:induction false} CeilLog2Unique(q: nat, k: nat)
    requires q >= 1 && Pow2(k) >= q && (k == 0 || Pow2(k - 1) < q)
    ensures k == CeilLog2(q)
  {
    var j := CeilLog2(q);
    if k < j {
      Pow2Monotone(k, j - 1);
    } else if j < k {
      Pow2Monotone(j, k - 1);
    }
  }

  lemma {:induction false} Pow2Monotone(a: nat, b: nat)
    requires a <= b
    ensures Pow2(a) <= Pow2(b)
    decreases b - a
  {
    if a < b {
      Pow2Monotone(a, b - 1);
      assert Pow2(b) == 2 * Pow2(b - 1);
    }
  }

  /** `2 ** ceil(log(q, 2))` for an int q: `math.log` raises a ValueError
      for q <= 0; otherwise the least power of two that is at least q. */
  function LeastPow2AtLeast(q: int): (r: Result<int>)
    ensures r.Ok? <==> q > 0
    ensures r.Err? ==> r.error == MathDomain
    ensures r.Ok? ==> q <= r.value < 2 * q && r.value == Pow2(CeilLog2(q))
  {
    if q <= 0 then Err(MathDomain)
    else
      var k := CeilLog2(q);
      assert k > 0 ==> Pow2(k) == 2 * Pow2(k - 1);
      Ok(Pow2(k))
  }

  /** A power of two is its own default. */
  lemma {:induction false} LeastPow2OfPower(k: nat)
    ensures LeastPow2AtLeast(Pow2(k)) == Ok(Pow2(k))
  {
    Pow2Monotone(0, k);
    if k > 0 {
      assert Pow2(k) == 2 * Pow2(k - 1);
      PowerStrict(k - 1, k);
    }
    CeilLog2Unique(Pow2(k), k);
  }

  lemma {:induction false} PowerStrict(a: nat, b: nat)
    requires a < b
    ensures Pow2(a) < Pow2(b)
  {
    Pow2Monotone(a, b - 1);
    assert Pow2(b) == 2 * Pow2(b - 1);
    Pow2Monotone(0, b - 1);
  }

  // ---------------------------------------------------------------------
  // The defaults written onto the namespace

  /** The fields after `if ps.rqk is None: ps.rqk = 2 ** ceil(log(ps.q, 2))`. */
  function RqkDefault(f: Fields): Result<Fields>
  {
    var rqk :- Field(f, "rqk");
    if !rqk.NoneValue? then Ok(f)
    else
      var qv :- Field(f, "q");
      var q :- AsInt(qv, "q");
      var p :- LeastPow2AtLeast(q);
      Ok(f["rqk" := Int(p)])
  }

  /** The fields after `if ps.ke_ct is None: ps.ke_ct = ps.ke`. */
  function KeCtDefault(f: Fields): Result<Fields>
  {
    var keCt :- Field(f, "ke_ct");
    if !keCt.NoneValue? then Ok(f)
    else
      var ke :- Field(f, "ke");
      Ok(f["ke_ct" := ke])
  }

  /** `SimpleNamespace(**params)`: a record whose fields the builders
      read and, for `rqk` and `ke_ct`, overwrite. */
  class Namespace {
    var fields: Fields

    constructor (params: Fields)
      ensures fields == params
    {
      fields := params;
    }

    function Read(name: string): (r: Result<Value>)
      reads this
      ensures r == Field(fields, name)
    {
      Field(fields, name)
    }

    /** The `rqk` default. When Python raises, the namespace is left
        unchanged. */
    method DefaultRqk() returns (r: Result<()>)
      modifies this
      ensures RqkDefault(old(fields)).Ok? ==> r == Ok(()) && fields == RqkDefault(old(fields)).value
      ensures RqkDefault(old(fields)).Err? ==> r == Err(RqkDefault(old(fields)).error) && fields == old(fields)
    {
      var rqk :- Read("rqk");
      if rqk.NoneValue? {
        var qv :- Read("q");
        var q :- AsInt(qv, "q");
        var p :- LeastPow2AtLeast(q);
        fields := fields["rqk" := Int(p)];
      }
      return Ok(());
    }

    /** The `ke_ct` default. */
    method DefaultKeCt() returns (r: Result<()>)
      modifies this
      ensures KeCtDefault(old(fields)).Ok? ==> r == Ok(()) && fields == KeCtDefault(old(fields)).value
      ensures KeCtDefault(old(fields)).Err? ==> r == Err(KeCtDefault(old(fields)).error) && fields == old(fields)
    {
      var keCt :- Read("ke_ct");
      if keCt.NoneValue? {
        var ke :- Read("ke");
        fields := fields["ke_ct" := ke];
      }
      return Ok(());
    }
  }

  // ---------------------------------------------------------------------
  // What the defaults change

  /** `g` agrees with `f` on every field but `name`. */
  ghost predicate SameExcept(f: Fields, g: Fields, name: string)
  {
    && (forall x :: x != name ==> (x in f <==> x in g))
    && (forall x :: x != name && x in f ==> g[x] == f[x])
  }

  /** The `rqk` default fails exactly when `rqk` is absent, or is None with
      `q` absent, not an int, or not positive; otherwise it writes the
      least power of two at least `q` into a None `rqk`, leaves a set one
      alone, and touches no other field. */
  lemma RqkDefaultSpec(f: Fields)
    ensures RqkDefault(f).Err? <==>
      "rqk" !in f || (f["rqk"].NoneValue? && !("q" in f && f["q"].Int? && f["q"].i > 0))
    ensures RqkDefault(f).Ok? ==>
      var g := RqkDefault(f).value;
      && SameExcept(f, g, "rqk") && "rqk" in g
      && (f["rqk"].NoneValue? ==> g["rqk"] == Int(LeastPow2AtLeast(f["q"].i).value))
      && (!f["rqk"].NoneValue? ==> g == f)
  {
  }

  /** Applying the default twice is applying it once. */
  lemma RqkDefaultIdempotent(f: Fields)
    requires RqkDefault(f).Ok?
    ensures RqkDefault(RqkDefault(f).value) == RqkDefault(f)
  {
    var g := RqkDefault(f).value;
    assert "rqk" in g && !g["rqk"].NoneValue?;
  }

  /** The `ke_ct` default fails exactly when `ke_ct` is absent, or is None
      with `ke` absent; a None `ke_ct` becomes whatever `ke` holds. */
  lemma KeCtDefaultSpec(f: Fields)
    ensures KeCtDefault(f).Err? <==> "ke_ct" !in f || (f["ke_ct"].NoneValue? && "ke" !in f)
    ensures KeCtDefault(f).Ok? ==>
      var g := KeCtDefault(f).value;
      && SameExcept(f, g, "ke_ct") && "ke_ct" in g
      && (f["ke_ct"].NoneValue? ==> g["ke_ct"] == f["ke"])
      && (!f["ke_ct"].NoneValue? ==> g == f)
  {
  }

  /** The two defaults write different fields, so their order does not
      matter when both succeed. */
  lemma DefaultsCommute(f: Fields)
    requires RqkDefault(f).Ok? && KeCtDefault(f).Ok?
    ensures KeCtDefault(RqkDefault(f).value).Ok? && RqkDefault(KeCtDefault(f).value).Ok?
    ensures KeCtDefault(RqkDefault(f).value).value == RqkDefault(KeCtDefault(f).value).value
  {
    var a, b := RqkDefault(f).value, KeCtDefault(f).value;
    assert "ke_ct" in a && a["ke_ct"] == f["ke_ct"] && ("ke" in f ==> "ke" in a && a["ke"] == f["ke"]);
    assert "rqk" in b && b["rqk"] == f["rqk"] && ("q" in f ==> "q" in b && b["q"] == f["q"]);
  }
}
