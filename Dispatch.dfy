/** `decryption_failure_calculator.py`: the scheme name selects a failure
    module, which is called on the parameters; a missing module and every
    exception the call raises come back as a message instead. */
module Dispatch {
  import opened Outcomes
  import opened Params
  import opened Laws
  import opened Reports
  import ParameterSet
  import Lwe
  import Rlwe2n
  import Mlwe2n
  import Lwr
  import Rlwr
  import Rlwe3n
  import Mlwe3n
  import Ntru

  datatype Option<T> = None | Some(value: T)

  /** The schemes whose module is named "failure." followed by the scheme. */
  const SameNamed: seq<string> :=
    ["NTRU", "LWE", "RLWE_2n", "RLWE_3n", "MLWE_2n", "MLWE_3n", "LWR", "RLWR", "MLWR"]

  /** The module of `MLWE_ss`, the module-LWE variant over X^n - X + 1. */
  const SsModule: string := "failure.MLWE_X^n-X+1"

  /** `_select_failure_module(algorithm, params)`. The parameters are never
      consulted, so the model takes the name alone. */
  function SelectFailureModule(algorithm: string): (m: Option<string>)
    ensures algorithm in SameNamed ==> m == Some("failure." + algorithm)
    ensures algorithm == "MLWE_ss" ==> m == Some(SsModule)
    ensures m.None? <==> algorithm !in SameNamed && algorithm != "MLWE_ss"
  {
    var m :=
    if algorithm == "NTRU" then Some("failure.NTRU")
    else if algorithm == "LWE" then Some("failure.LWE")
    else if algorithm == "RLWE_2n" then Some("failure.RLWE_2n")
    else if algorithm == "RLWE_3n" then Some("failure.RLWE_3n")
    else if algorithm == "MLWE_2n" then Some("failure.MLWE_2n")
    else if algorithm == "MLWE_3n" then Some("failure.MLWE_3n")
    else if algorithm == "MLWE_ss" then Some(SsModule)
    else if algorithm == "LWR" then Some("failure.LWR")
    else if algorithm == "RLWR" then Some("failure.RLWR")
    else if algorithm == "MLWR" then Some("failure.MLWR")
    else None;
    assert algorithm in SameNamed ==> m == Some("failure." + algorithm) by {
      if algorithm in SameNamed {
        Prefixed("failure.", algorithm, m.value);
      }
    }
    m
  }

  /** A string made of `prefix` and then `rest` is their concatenation. */
  lemma Prefixed(prefix: string, rest: string, s: string)
    requires |s| == |prefix| + |rest| && s[..|prefix|] == prefix && s[|prefix|..] == rest
    ensures s == prefix + rest
  {
    assert s == s[..|prefix|] + s[|prefix|..];
  }

  /** Distinct schemes select distinct modules. */
  lemma SelectInjective(a: string, b: string)
    requires SelectFailureModule(a).Some? && SelectFailureModule(a) == SelectFailureModule(b)
    ensures a == b
  {
    var prefix := "failure.";
    if a in SameNamed && b in SameNamed {
      assert a == (prefix + a)[|prefix|..];
      assert b == (prefix + b)[|prefix|..];
    }
  }

  /** The schemes with a module are exactly those with a correctness
      parameter list. */
  lemma ModulesMatchParameterLists(algorithm: string)
    ensures SelectFailureModule(algorithm).Some? <==>
              ParameterSet.GetAlgorithmParams(algorithm, ParameterSet.Correctness) != []
  {
  }

  /** The failure modules `importlib.import_module` can load. The modules
      of MLWR and of MLWE_ss are not part of this model. */
  datatype FailureModule =
    | NtruModule | LweModule | Rlwe2nModule | Rlwe3nModule | Mlwe2nModule
    | Mlwe3nModule | LwrModule | RlwrModule
    | Unmodelled(moduleName: string)

  /** `importlib.import_module(module_name)`. */
  function Import(moduleName: string): (m: FailureModule)
    ensures m.Unmodelled? ==> m.moduleName == moduleName
  {
    if moduleName == "failure.NTRU" then NtruModule
    else if moduleName == "failure.LWE" then LweModule
    else if moduleName == "failure.RLWE_2n" then Rlwe2nModule
    else if moduleName == "failure.RLWE_3n" then Rlwe3nModule
    else if moduleName == "failure.MLWE_2n" then Mlwe2nModule
    else if moduleName == "failure.MLWE_3n" then Mlwe3nModule
    else if moduleName == "failure.LWR" then LwrModule
    else if moduleName == "failure.RLWR" then RlwrModule
    else Unmodelled(moduleName)
  }

  /** What `compute_failure_probability(algorithm, recommended_params)`
      returns. */
  datatype Answer =
    | Log2Failure(log2: Reported)                     // the number the failure module returns
    | NtruSummary(n: int, q: int, probability: real)  // the values NTRU's result string shows
    | NoModule                                        // the message for a None selection
    | Caught(error: Error)                            // the message for an exception of the call
    | NotModelled(moduleName: string)                 // a module outside this model

  /** The `except` clause: an exception of the call becomes its message,
      and a result is returned as it is. */
  function Catch(r: Result<Reported>): (a: Answer)
    ensures a.Log2Failure? || a.Caught?
    ensures r.Ok? ==> a == Log2Failure(r.value)
    ensures r.Err? ==> a == Caught(r.error)
  {
    match r
    case Ok(x) => Log2Failure(x)
    case Err(e) => Caught(e)
  }

  /** `failure_module.compute_failure_probability(**recommended_params)`.
      The two 3n modules take the logarithm `L` and the module-LWE one also
      the discrete Gaussian law `Gauss` of sigma, neither of which is modelled. */
  ghost function CallModule(L: real -> real, Gauss: real -> Law, m: FailureModule, params: Fields): Answer
  {
    match m
    case NtruModule =>
      (match Ntru.Summary(params)
       case Ok(s) => NtruSummary(s.0, s.1, s.2)
       case Err(e) => Caught(e))
    case LweModule => Catch(Lwe.Failure(params))
    case Rlwe2nModule => Catch(Rlwe2n.Failure(params))
    case Rlwe3nModule => Catch(Rlwe3n.Failure(L, params))
    case Mlwe2nModule => Catch(Mlwe2n.Failure(params))
    case Mlwe3nModule => Catch(Mlwe3n.Failure(L, Gauss, params))
    case LwrModule => Catch(Lwr.Failure(params))
    case RlwrModule => Catch(Rlwr.Failure(params))
    case Unmodelled(name) => NotModelled(name)
  }

  ghost function Outcome(L: real -> real, Gauss: real -> Law, algorithm: string, params: Fields): Answer
  {
    match SelectFailureModule(algorithm)
    case None => NoModule
    case Some(name) => CallModule(L, Gauss, Import(name), params)
  }

  method ComputeFailureProbability(L: real -> real, Gauss: real -> Law, algorithm: string, params: Fields)
      returns (a: Answer)
    ensures a == Outcome(L, Gauss, algorithm, params)
  {
    var name := SelectFailureModule(algorithm);
    if name.None? {
      return NoModule;
    }
    var m := Import(name.value);
    match m
    case NtruModule =>
      var r := Ntru.ComputeFailureProbability(params);
      a := if r.Ok? then NtruSummary(r.value.0, r.value.1, r.value.2) else Caught(r.error);
    case LweModule =>
      var r := Lwe.ComputeFailureProbability(params);
      a := Catch(r);
    case Rlwe2nModule =>
      var r := Rlwe2n.ComputeFailureProbability(params);
      a := Catch(r);
    case Rlwe3nModule =>
      var r := Rlwe3n.ComputeFailureProbability(L, params);
      a := Catch(r);
    case Mlwe2nModule =>
      var r := Mlwe2n.ComputeFailureProbability(params);
      a := Catch(r);
    case Mlwe3nModule =>
      var r := Mlwe3n.ComputeFailureProbability(L, Gauss, params);
      a := Catch(r);
    case LwrModule =>
      var r := Lwr.ComputeFailureProbability(params);
      a := Catch(r);
    case RlwrModule =>
      var r := Rlwr.ComputeFailureProbability(params);
      a := Catch(r);
    case Unmodelled(n) =>
      a := NotModelled(n);
  }

  // ---------------------------------------------------------------------
  // Where each name leads

  /** A name without a module gets the message, and only such a name. */
  lemma NoModuleExactly(L: real -> real, Gauss: real -> Law, algorithm: string, params: Fields)
    ensures Outcome(L, Gauss, algorithm, params) == NoModule <==> SelectFailureModule(algorithm).None?
  {
  }

  /** The outcome of a scheme whose selection and import are known. */
  lemma Routed(L: real -> real, Gauss: real -> Law, algorithm: string, moduleName: string, m: FailureModule, params: Fields)
    requires SelectFailureModule(algorithm) == Some(moduleName) && Import(moduleName) == m
    ensures Outcome(L, Gauss, algorithm, params) == CallModule(L, Gauss, m, params)
  {
  }

  /** Each scheme with a modelled module reaches that module, and the
      module's exception, if any, comes back as its message; MLWR and
      MLWE_ss select modules this model does not hold. */
  lemma RouteLwe(L: real -> real, Gauss: real -> Law, params: Fields)
    ensures Outcome(L, Gauss, "LWE", params) == Catch(Lwe.Failure(params))
  {
    assert SelectFailureModule("LWE") == Some("failure.LWE");
    assert Import("failure.LWE") == LweModule;
    Routed(L, Gauss, "LWE", "failure.LWE", LweModule, params);
  }

  lemma RouteRlwe2n(L: real -> real, Gauss: real -> Law, params: Fields)
    ensures Outcome(L, Gauss, "RLWE_2n", params) == Catch(Rlwe2n.Failure(params))
  {
    assert SelectFailureModule("RLWE_2n") == Some("failure.RLWE_2n");
    assert Import("failure.RLWE_2n") == Rlwe2nModule;
    Routed(L, Gauss, "RLWE_2n", "failure.RLWE_2n", Rlwe2nModule, params);
  }

  lemma RouteRlwe3n(L: real -> real, Gauss: real -> Law, params: Fields)
    ensures Outcome(L, Gauss, "RLWE_3n", params) == Catch(Rlwe3n.Failure(L, params))
  {
    assert SelectFailureModule("RLWE_3n") == Some("failure.RLWE_3n");
    assert Import("failure.RLWE_3n") == Rlwe3nModule;
    Routed(L, Gauss, "RLWE_3n", "failure.RLWE_3n", Rlwe3nModule, params);
  }

  lemma RouteMlwe2n(L: real -> real, Gauss: real -> Law, params: Fields)
    ensures Outcome(L, Gauss, "MLWE_2n", params) == Catch(Mlwe2n.Failure(params))
  {
    assert SelectFailureModule("MLWE_2n") == Some("failure.MLWE_2n");
    assert Import("failure.MLWE_2n") == Mlwe2nModule;
    Routed(L, Gauss, "MLWE_2n", "failure.MLWE_2n", Mlwe2nModule, params);
  }

  lemma RouteMlwe3n(L: real -> real, Gauss: real -> Law, params: Fields)
    ensures Outcome(L, Gauss, "MLWE_3n", params) == Catch(Mlwe3n.Failure(L, Gauss, params))
  {
    assert SelectFailureModule("MLWE_3n") == Some("failure.MLWE_3n");
    assert Import("failure.MLWE_3n") == Mlwe3nModule;
    Routed(L, Gauss, "MLWE_3n", "failure.MLWE_3n", Mlwe3nModule, params);
  }

  lemma RouteLwr(L: real -> real, Gauss: real -> Law, params: Fields)
    ensures Outcome(L, Gauss, "LWR", params) == Catch(Lwr.Failure(params))
  {
    assert SelectFailureModule("LWR") == Some("failure.LWR");
    assert Import("failure.LWR") == LwrModule;
    Routed(L, Gauss, "LWR", "failure.LWR", LwrModule, params);
  }

  lemma RouteRlwr(L: real -> real, Gauss: real -> Law, params: Fields)
    ensures Outcome(L, Gauss, "RLWR", params) == Catch(Rlwr.Failure(params))
  {
    assert SelectFailureModule("RLWR") == Some("failure.RLWR");
    assert Import("failure.RLWR") == RlwrModule;
    Routed(L, Gauss, "RLWR", "failure.RLWR", RlwrModule, params);
  }

  lemma RouteMlwr(L: real -> real, Gauss: real -> Law, params: Fields)
    ensures Outcome(L, Gauss, "MLWR", params) == NotModelled("failure.MLWR")
  {
  }

  lemma RouteMlweSs(L: real -> real, Gauss: real -> Law, params: Fields)
    ensures Outcome(L, Gauss, "MLWE_ss", params) == NotModelled(SsModule)
  {
  }

  /** NTRU's wrapper raises only when n or q is missing or None; the
      message then names that TypeError. Otherwise the answer shows the
      failure probability of the truncated q. */
  lemma RouteNtru(L: real -> real, Gauss: real -> Law, params: Fields)
    ensures Outcome(L, Gauss, "NTRU", params).Caught? <==>
              GetOrNone(params, "n").NoneValue? || GetOrNone(params, "q").NoneValue?
    ensures Outcome(L, Gauss, "NTRU", params).NtruSummary? ==>
              Outcome(L, Gauss, "NTRU", params).probability == Ntru.FailureProbability(Outcome(L, Gauss, "NTRU", params).q)
  {
    Ntru.SummaryCases(params);
  }
}
