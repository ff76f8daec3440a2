/** `parameter_set.py`: the ordered names of the parameters each scheme
    asks for, for a performance evaluation and for a correctness
    evaluation. */
module ParameterSet {

  /** The evaluation type of a performance estimate. */
  const Performance: string := "性能评估"

  /** The evaluation type of a correctness (decryption failure) estimate. */
  const Correctness: string := "正确性评估"

  /** The schemes with a performance parameter list. */
  const PerformanceSchemes: seq<string> :=
    ["NTRU", "LWE", "RLWE_2n", "RLWE_3n", "MLWE_2n", "MLWE_3n", "LWR", "RLWR", "MLWR"]

  /** The schemes with a correctness parameter list: the performance ones
      and `MLWE_ss`. */
  const CorrectnessSchemes: seq<string> :=
    ["NTRU", "LWE", "RLWE_2n", "MLWE_2n", "RLWE_3n", "MLWE_ss", "MLWE_3n", "LWR", "RLWR", "MLWR"]

  /** No name occurs twice. */
  ghost predicate Distinct(names: seq<string>)
  {
    forall i, j :: 0 <= i < j < |names| ==> names[i] != names[j]
  }

  /** The performance branch of `get_algorithm_params`. */
  function PerformanceParams(algorithm: string): (names: seq<string>)
    ensures names != [] <==> algorithm in PerformanceSchemes
    ensures names != [] ==> names[0] == "n" && names[|names| - 1] == "eta"
    ensures Distinct(names)
  {
    if algorithm == "NTRU" then ["n", "q", "p", "B", "eta"]
    else if algorithm == "LWE" then ["n", "m", "q", "B", "eta"]
    else if algorithm == "RLWE_2n" then ["n", "q", "B", "eta"]
    else if algorithm == "RLWE_3n" then ["n", "q", "B", "eta"]
    else if algorithm == "MLWE_2n" then ["n", "k", "q", "B", "eta"]
    else if algorithm == "MLWE_3n" then ["n", "k", "q", "B", "eta"]
    else if algorithm == "LWR" then ["n", "m", "q", "p", "B", "eta"]
    else if algorithm == "RLWR" then ["n", "q", "p", "B", "eta"]
    else if algorithm == "MLWR" then ["n", "k", "p", "q", "B", "eta"]
    else []
  }

  /** The correctness branch of `get_algorithm_params`. */
  function CorrectnessParams(algorithm: string): (names: seq<string>)
    ensures names != [] <==> algorithm in CorrectnessSchemes
    ensures names != [] ==> names[0] == "n"
    ensures algorithm != "NTRU" && names != [] ==> names[|names| - 1] == "threshold"
    ensures algorithm == "NTRU" ==> names == ["n", "q"]
  {
    if algorithm == "NTRU" then ["n", "q"]
    else if algorithm == "LWE" then ["n", "q", "ks", "ke_pk", "kr", "ke", "threshold"]
    else if algorithm == "RLWE_2n" then ["n", "ks", "ke", "q", "rqc", "rq2", "rqk", "threshold"]
    else if algorithm == "MLWE_2n" then ["n", "m", "ks", "ke", "ke_ct", "q", "rqk", "rqc", "rq2", "threshold"]
    else if algorithm == "RLWE_3n" then ["n", "q", "psi_1", "threshold"]
    else if algorithm == "MLWE_ss" then ["n", "q", "eta_s", "eta_e", "eta_ct", "rqc", "rq2", "threshold"]
    else if algorithm == "MLWE_3n" then ["n", "q", "k", "psi_1", "rqc", "rq2", "threshold"]
    else if algorithm == "LWR" then ["n", "q", "p", "ks", "kr", "threshold"]
    else if algorithm == "RLWR" then ["n", "q", "rqk", "rqc", "rq2", "ks", "kr", "threshold"]
    else if algorithm == "MLWR" then ["n", "m", "q", "rqk", "rqc", "rq2", "ks", "kr", "threshold"]
    else []
  }

  /** `get_algorithm_params(algorithm_name, eval_type)`: an unknown
      evaluation type, or a scheme without a list under the given type,
      yields the empty list. Every list starts with "n" and repeats no
      name; a performance list ends with "eta", and a correctness list
      ends with "threshold" except NTRU's, which is just n and q. */
  function GetAlgorithmParams(algorithm: string, evalType: string): (names: seq<string>)
    ensures names != [] <==>
              (evalType == Performance && algorithm in PerformanceSchemes) ||
              (evalType == Correctness && algorithm in CorrectnessSchemes)
    ensures names != [] ==> names[0] == "n"
    ensures evalType == Performance && names != [] ==> names[|names| - 1] == "eta"
    ensures evalType == Correctness && algorithm != "NTRU" && names != [] ==> names[|names| - 1] == "threshold"
    ensures evalType == Correctness && algorithm == "NTRU" ==> names == ["n", "q"]
    ensures Distinct(names)
  {
    assert Performance != Correctness by {
      assert Performance[0] != Correctness[0];
    }
    if evalType == Performance then PerformanceParams(algorithm)
    else if evalType == Correctness then CorrectnessDistinct(algorithm); CorrectnessParams(algorithm)
    else []
  }

  /** No correctness list repeats a name; the ten lists are checked in
      two groups of five. */
  lemma CorrectnessDistinct(algorithm: string)
    ensures Distinct(CorrectnessParams(algorithm))
  {
    if algorithm in CorrectnessSchemes[..5] {
      FirstCorrectnessDistinct(algorithm);
    } else {
      LastCorrectnessDistinct(algorithm);
    }
  }

  lemma FirstCorrectnessDistinct(algorithm: string)
    requires algorithm in CorrectnessSchemes[..5]
    ensures Distinct(CorrectnessParams(algorithm))
  {
  }

  lemma LastCorrectnessDistinct(algorithm: string)
    requires algorithm !in CorrectnessSchemes[..5]
    ensures Distinct(CorrectnessParams(algorithm))
  {
  }

  /** `MLWE_ss` has a correctness list but no performance list. */
  lemma SsCorrectnessOnly()
    ensures GetAlgorithmParams("MLWE_ss", Performance) == []
    ensures GetAlgorithmParams("MLWE_ss", Correctness) != []
  {
    assert "MLWE_ss" in CorrectnessSchemes;
  }

  /** The 2n and 3n variants of RLWE, and of MLWE, share one performance
      list. */
  lemma PerformanceVariantsAgree()
    ensures GetAlgorithmParams("RLWE_2n", Performance) == GetAlgorithmParams("RLWE_3n", Performance)
    ensures GetAlgorithmParams("MLWE_2n", Performance) == GetAlgorithmParams("MLWE_3n", Performance)
  {
  }
}
