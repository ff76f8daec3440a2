# Decryption-failure calculator of lattice-crypto-evaluator, in Dafny

The repository estimates how often a lattice-based encryption scheme fails to
decrypt. It does this by building the exact probability law of the final decryption
noise as a dictionary from integers to probabilities, then reading off the
probability that the noise exceeds the decoding threshold. It builds the noise
law from:

- centered binomial laws;
- the rounding error of a modulus switch;
- convolutions, products and iterated self-convolutions.

This project models:

- the law toolkit of `src/failure/util.py`;
- the eight failure modules built on that toolkit: LWE, LWR, RLWR, RLWE over
  X^n+1 (`RLWE_2n`), MLWE over X^n+1 (`MLWE_2n`), the 3n-variants `RLWE_3n` and
  `MLWE_3n`, and NTRU;
- the dispatcher `src/decryption_failure_calculator.py`, which turns a scheme
  name into a module and catches its exceptions;
- the parameter schemas of `src/parameter_set.py`.

Each is proved against a specification.

Data model:

- A law is a `map<int, real>` (`Laws.Law`) with exact reals.
- The parameter dictionary that `SimpleNamespace(**params)` wraps is a
  `map<string, Value>` (`Params.Fields`). A value is an integer, a number or
  Python's `None`.
- Every Python exception a call can raise is an `Outcomes.Error`, returned in
  an `Outcomes.Result`. The errors are a missing attribute, a wrong type
  (arithmetic on `None`), a division by zero, a `math` domain error and a
  failed `assert`.

How the source is modelled:

- Accumulation of dictionaries. Every dictionary-filling loop of the source
  (`C[c] = C.get(c, 0) + w`) is one generic specification, `Laws.Accumulate`.
  It is the sum of the weights of the items that share a key.
  - Convolution, product, the modulus-switching law and the four-fold tables of
    the 3n modules are instances of it.
  - The loops themselves are methods whose postcondition is that
    specification: `Engine.FillPairwise`, `Tables.FillTable` and
    `BaseLaws.BuildModSwitchingErrorLaw`.
  - Dictionary iteration order is left open. Each loop picks any remaining key.
- Fast exponentiation. `iter_law_convolution` is modelled digit by digit on the
  string `bin(i)[2:]`, including the `b` that string starts with for a negative
  `i`. It is proved equal to the |i|-fold convolution power whenever cleaning
  drops nothing.
- Namespace defaults. The defaults that `RLWE_2n` and `MLWE_2n` write back into
  their namespace (`ps.rqk`, `ps.ke_ct`) are a class, `Params.Namespace`, with
  a `fields` map that its methods update.

Where the docstring and the code disagree, the model follows the code:

- `mod_centered` documents its result as lying in (-q/2, q/2]. For even `q` the
  code returns −q/2 on q/2, so its range is [-q/2, q/2) (`BaseLaws.CenteredHalf`).
- `binomial(x, y)` is documented as C(y, x). The code computes x! // y! // (x-y)!,
  which is C(x, y) (`Combinatorics.BinomialIsChoose`). `centered_binomial_pdf`
  calls it in that order.

## Model

| member | source | states |
|---|---|---|
| Combinatorics.BinomialIsChoose | src/failure/util.py:33-51 | `binomial(x, y)` is the binomial coefficient C(x, y) when 0 <= y <= x, and 0 whenever a factorial argument is negative (the `ValueError` branch) |
| Combinatorics.ChooseFact | src/failure/util.py:48 | C(n, k) · k! · (n−k)! = n!, so the two floor divisions of `binomial` are exact |
| Combinatorics.ChooseSymmetric | src/failure/util.py:33-51 | C(n, k) = C(n, n−k) |
| Combinatorics.ChooseRow | src/failure/util.py:70 | the coefficients C(n, 0..n) sum to 2^n, the divisor of the centered binomial pdf |
| Combinatorics.ChooseBeyond | src/failure/util.py:33-51 | C(n, k) = 0 for k > n |
| Combinatorics.ChoosePositive | src/failure/util.py:33-51 | C(n, k) >= 1 for k <= n |
| BaseLaws.Pow2Real | src/failure/util.py:70 | `2. ** e` is positive and equals the integer 2^e for e >= 0 |
| BaseLaws.BuildCenteredBinomialLaw | src/failure/util.py:73-90 | the loop over range(−k, k+1) builds the centered binomial law `Cbd(k)` |
| BaseLaws.PdfIsChoose | src/failure/util.py:54-70 | P(X = x) = C(2k, x+k) / 2^(2k) on [−k, k] |
| BaseLaws.CbdPositive | src/failure/util.py:73-90 | every probability of the law is positive and its keys lie in [−k, k] |
| BaseLaws.CbdSymmetric | src/failure/util.py:73-90 | P(X = x) = P(X = −x) |
| BaseLaws.CbdKeys | src/failure/util.py:88-89 | the keys are exactly the integers −k..k |
| BaseLaws.CbdMass | src/failure/util.py:73-90 | for k >= 0 the probabilities sum to 1 |
| BaseLaws.CbdOne | src/failure/util.py:73-90 | k = 1 gives {−1: 1/4, 0: 1/2, 1: 1/4} |
| BaseLaws.CbdTwo | src/failure/util.py:73-90 | k = 2 gives {±2: 1/16, ±1: 1/4, 0: 3/8} |
| BaseLaws.UniformKeys | src/failure/util.py:151-167 | the uniform law has the keys −B..B |
| BaseLaws.UniformLaw | src/failure/util.py:151-167 | for B >= 0 the uniform law has mass 1, is symmetric and within [−B, B] |
| BaseLaws.SparseTernaryLaw | src/failure/util.py:121-144 | the law is returned exactly when 0 <= p <= 1/2 (else the `assert` fails), and it then has mass 1, is non-negative, symmetric and within [−1, 1] |
| BaseLaws.RoundHalfEven | src/failure/util.py:192 | Python's `round` lands within 1/2 of its argument and breaks ties to even |
| BaseLaws.PyMod | src/failure/util.py:192 | Python's `%` takes the sign of the divisor and is congruent to the dividend |
| BaseLaws.ModSwitch | src/failure/util.py:174-192 | `mod_switch` succeeds exactly when both moduli are non-zero, and lands in [0, rq) for rq > 0 |
| BaseLaws.ModCentered | src/failure/util.py:195-211 | `mod_centered` succeeds exactly when q != 0 |
| BaseLaws.CenteredRange | src/failure/util.py:195-211 | for q > 0 the centered representative r satisfies −q <= 2r < q and is congruent to x |
| BaseLaws.CenteredHalf | src/failure/util.py:208-211 | for even q, q/2 is represented by −q/2, not by q/2 |
| BaseLaws.BuildModSwitchingErrorLaw | src/failure/util.py:214-236 | the loop over range(q) builds the rounding-error law `MsLaw(q, rq)`, including its division-by-zero errors |
| BaseLaws.MsWeightSum | src/failure/util.py:235 | q weights of 1/q sum to 1 |
| BaseLaws.MsLawMass | src/failure/util.py:214-236 | for q > 0 the law exists exactly when rq != 0, has mass 1, is non-negative and its keys d satisfy −q <= 2d < q |
| BaseLaws.RoundTrip | src/failure/util.py:174-192 | switching x in [0, q) up to rq >= q and back returns x |
| BaseLaws.MsLawExact | src/failure/util.py:214-236 | for 0 < q <= rq there is no rounding error: the law is {0: 1} |
| BaseLaws.MsLawExample | src/failure/util.py:214-236 | q = 4, rq = 2 gives {0: 1/2, 1: 1/4, −1: 1/4} |
| Laws.Add | src/failure/util.py:235 | `C[k] = C.get(k, 0) + x` adds k to the keys, adds x at k and keeps every other entry |
| Laws.AccumulateInsert | src/failure/util.py:230-236 | adding one more item to a filled dictionary is one `Add` of its key and weight |
| Laws.AccumulateMass | src/failure/util.py:230-236 | a filled dictionary's values sum to the sum of all the weights |
| Laws.AccumulateSymmetric | src/failure/util.py:257-262 | a key-negating involution on the items that keeps weights makes the filled law symmetric |
| Laws.AccumulateNonNeg | src/failure/util.py:257-262 | non-negative weights give a non-negative law |
| Laws.AccumulateBounded | src/failure/util.py:257-262 | keys within [−m, m] give a law within [−m, m] |
| Laws.ConvKeys | src/failure/util.py:243-262 | c is a key of the convolution exactly when c = a + b for keys a of A and b of B |
| Laws.ConvAt | src/failure/util.py:243-262 | the convolution at c is the sum over a of A[a]·B[c−a] |
| Laws.ConvMass | src/failure/util.py:243-262 | mass(A ∗ B) = mass(A) · mass(B) |
| Laws.ProdMass | src/failure/util.py:265-284 | mass of the product law = mass(A) · mass(B) |
| Laws.ConvCommutes | src/failure/util.py:243-262 | `law_convolution(A, B) == law_convolution(B, A)` |
| Laws.ProdCommutes | src/failure/util.py:265-284 | `law_product(A, B) == law_product(B, A)` |
| Laws.ConvSymmetric | src/failure/util.py:243-262 | the convolution of two symmetric laws is symmetric |
| Laws.ProdSymmetric | src/failure/util.py:265-284 | the product with a symmetric law is symmetric |
| Laws.ConvUnitLeft | src/failure/util.py:323 | {0: 1.0}, the start of the fast exponentiation, is a left identity of convolution |
| Laws.ConvUnitRight | src/failure/util.py:243-262 | {0: 1.0} is a right identity of convolution |
| Laws.ProdUnitRight | src/failure/util.py:265-284 | the product of a non-empty A with {0: 1} puts all of A's mass at 0 |
| Laws.ConvBounded | src/failure/util.py:243-262 | laws within [−m1, m1] and [−m2, m2] convolve to a law within [−(m1+m2), m1+m2] |
| Laws.ProdBounded | src/failure/util.py:265-284 | their product law lies within [−m1·m2, m1·m2] |
| Laws.ConvNonNeg | src/failure/util.py:243-262 | non-negative laws convolve to a non-negative law |
| Laws.ProdNonNeg | src/failure/util.py:265-284 | non-negative laws multiply to a non-negative law |
| Laws.CleanSplit | src/failure/util.py:287-304 | the mass of A is the mass kept by `clean_dist` plus the mass of the dropped keys |
| Laws.CleanMass | src/failure/util.py:287-304 | cleaning loses at most (number of keys) · 2^−300 of mass and never adds any |
| Laws.CleanIdentity | src/failure/util.py:287-304 | cleaning changes nothing exactly when every probability exceeds 2^−300 |
| Laws.CleanPreserves | src/failure/util.py:287-304 | cleaning keeps non-negativity, symmetry and every bound |
| Engine.FillRow | src/failure/util.py:259-261 | the inner loop over B adds the row of pairs (a, b) to the filled dictionary |
| Engine.FillPairwise | src/failure/util.py:257-262 | the double loop fills the dictionary with every pair of keys |
| Engine.LawConvolution | src/failure/util.py:243-262 | `law_convolution` returns the convolution `Conv(A, B)` |
| Engine.LawProduct | src/failure/util.py:265-284 | `law_product` returns the product law `Prod(A, B)` |
| Engine.CleanDist | src/failure/util.py:287-304 | `clean_dist` returns the entries whose probability exceeds 2^−300 |
| Algebra.ConvAssoc | src/failure/util.py:243-262 | convolution is associative |
| Iteration.IterLawConvolution | src/failure/util.py:307-331 | the loop over the digits of `bin(i)[2:]` returns `IterLaw(A, i)` |
| Iteration.SquareStep | src/failure/util.py:326-330 | one digit: square and clean, then on '1' convolve with A and clean |
| Iteration.BitsValue | src/failure/util.py:324 | `bin(i)[2:]` read as binary is |i|; for i > 0 it is a string of binary digits that starts with '1' |
| Iteration.DigitsValue | src/failure/util.py:324 | the binary digits of n read back to n |
| Iteration.RunLeadingZero | src/failure/util.py:325-330 | a leading non-'1' character leaves the law {0: 1} unchanged |
| Iteration.IterZero | src/failure/util.py:307-331 | i = 0 returns {0: 1.0} |
| Iteration.IterNegative | src/failure/util.py:324 | a negative count behaves as its absolute value: the leading 'b' of `bin(i)[2:]` is a no-op |
| Iteration.StepBounded | src/failure/util.py:326-330 | a digit step doubles the bound and adds A's bound on '1' |
| Iteration.RunBounded | src/failure/util.py:325-330 | after the digits s the law lies within Value(s) · m |
| Iteration.IterPreserves | src/failure/util.py:307-331 | A within [−m, m] gives a result within [−|i|·m, |i|·m]; a symmetric A gives a symmetric result |
| IterationMass.CleanConvMass | src/failure/util.py:326-327 | a cleaned convolution is non-negative with mass at most the product of masses |
| IterationMass.RunMass | src/failure/util.py:325-330 | after the digits s the law is non-negative with mass at most mass(A)^Value(s) |
| IterationMass.IterMass | src/failure/util.py:307-331 | the result is non-negative with mass at most mass(A)^|i| |
| IterationPower.PlainRunPower | src/failure/util.py:325-330 | square-and-multiply without cleaning computes the Value(s)-fold convolution power |
| IterationPower.RunUnpruned | src/failure/util.py:325-330 | when no cleaning step drops a key, the cleaned and plain runs agree |
| IterationPower.IterUnpruned | src/failure/util.py:307-331 | when no cleaning step drops a key, the result is the |i|-fold convolution power of A |
| ConvPowers.ConvPowerAdd | src/failure/util.py:309 | A^{∗m} ∗ A^{∗n} = A^{∗(m+n)} |
| ConvPowers.ConvPowerMass | src/failure/util.py:309 | mass(A^{∗n}) = mass(A)^n |
| Chains.IterMassOne | src/failure/util.py:307-331 | a law of mass 1 keeps mass 1 when nothing is cleaned |
| Chains.ChainBounded | src/failure/LWE.py:17-28 | the shape iter(P1, n1) ∗ iter(P2, n2) ∗ Z is bounded by |n1|·m1 + |n2|·m2 + mz |
| Chains.ChainSymmetric | src/failure/LWE.py:24-28 | symmetric parts give a symmetric inner noise, and with a symmetric Z a symmetric final law |
| Chains.ChainAtMostOne | src/failure/LWE.py:17-28 | sub-probability parts give a sub-probability final law |
| Chains.ChainMassOne | src/failure/LWE.py:17-28 | parts of mass 1 with nothing cleaned give a final law of mass 1 |
| Chains.CbdLaw | src/failure/util.py:73-90 | `Cbd(k)` is a symmetric probability law within [−k, k] |
| Chains.CbdProduct | src/failure/LWE.py:17 | the product of two centered binomials is a symmetric probability law within [−ab, ab] |
| Chains.BuildMsOf | src/failure/LWR.py:64 | building the rounding law from two parameter values, with the type and division errors |
| Chains.MsOfInts | src/failure/LWR.py:64 | for integer q > 0 the rounding law fails with `DivisionByZero` exactly when rq = 0 and is otherwise a probability law within [−q/2, q/2] |
| Chains.MsOfExact | src/failure/RLWE_2n.py:17 | with rq >= q the rounding law is {0: 1} ("uncompressed is 0") |
| Tails.Ceil | src/failure/util.py:358 | `ceil(t)` is the least integer at or above t |
| Tails.MaxOfKeys | src/failure/util.py:353 | `max(D.keys())` is the largest key |
| Tails.MaxKeyUnique | src/failure/util.py:353 | the largest key is unique |
| Tails.TailProbability | src/failure/util.py:334-360 | the scan returns `TailProbabilityOf(D, t)`: 0 for an empty law or t at or above the largest key, else the sum of D[i] + D[−i] over ceil(t) <= i < max key |
| Tails.TailProbabilityNonNeg | src/failure/util.py:334-360 | the scan of a non-negative law is non-negative |
| Tails.TailProbabilityNonIncreasing | src/failure/util.py:334-360 | a larger threshold never gives a larger result |
| Tails.TailProbabilityBeyond | src/failure/util.py:354-355 | a law within [−m, m] and t >= m give 0 |
| Tails.TailProbabilityAtZero | src/failure/util.py:358-359 | the scan at t = 0 on {−1: 1/4, 0: 1/2, 1: 1/4} returns 1, where P(|X| > 0) is 1/2 |
| Tails.TailProbabilityBelowMax | src/failure/util.py:358-359 | the scan at t = 1/2 on the same law returns 0, where P(|X| > 1/2) is 1/2 |
| Tails.TailMass | src/failure/RLWE_3n.py:61 | `sum(p for x, p in D.items() if abs(x) > threshold)` returns `TailAbove(D, t)`, the mass of the keys with |x| > t |
| Tails.TailAboveNonNeg | src/failure/RLWE_3n.py:61 | that tail is non-negative for a non-negative law |
| Tails.TailAboveAtMostMass | src/failure/RLWE_3n.py:61 | that tail is at most the mass of the law |
| Tails.TailAboveNonIncreasing | src/failure/RLWE_3n.py:61 | a larger threshold never gives a larger tail |
| Tails.TailAboveNegative | src/failure/RLWE_3n.py:61 | a negative threshold gives the whole mass |
| Tails.TailAboveBeyond | src/failure/RLWE_3n.py:61 | a law within [−m, m] and t >= m give 0 |
| Tails.TailAboveAtLeast | src/failure/RLWE_3n.py:61 | every key x with |x| > t contributes its probability |
| Tails.TernaryTailAbove | src/failure/RLWE_3n.py:61 | on {−1: 1/4, 0: 1/2, 1: 1/4} the tail above any t in [0, 1) is 1/2 |
| Scaling.ScaleKey | src/failure/util.py:436 | for integer a and c, `round(10 * a * c) / 10` is the integer a · c |
| Scaling.DistScale | src/failure/util.py:432-437 | the loop returns a scaling of A by c in every key order, and for c != 0 exactly `Scaled(A, c)` |
| Scaling.ScalingUnique | src/failure/util.py:432-437 | for c != 0 the result does not depend on the key order |
| Scaling.ScalingMass | src/failure/util.py:432-437 | for c != 0 scaling keeps the mass |
| Scaling.ScalingNonNeg | src/failure/util.py:432-437 | scaling keeps non-negativity |
| Scaling.ScalingByZero | src/failure/util.py:432-437 | c = 0 collapses a non-empty law to the key 0, carrying the probability of one of its keys (the last one written) |
| Scaling.ScalingSymmetric | src/failure/util.py:432-437 | scaling keeps symmetry |
| Scaling.ScalingMultiples | src/failure/util.py:432-437 | for c != 0 every key of the result is a multiple of c |
| Scaling.ScalingBounded | src/failure/util.py:432-437 | A within [−m, m] scales to within [−m·|c|, m·|c|] |
| Reports.Log2Report | src/failure/LWE.py:36 | `log(p)/log(2)` succeeds exactly when p > 0 and raises the math domain error otherwise |
| Reports.TailAtThreshold | src/failure/LWE.py:35 | `tail_probability(F, ps.threshold)` with the threshold as a parameter value |
| Reports.ThresholdTail | src/failure/util.py:349-355 | a `None` threshold raises exactly when the law is non-empty (the comparison with the largest key) |
| Reports.TailAboveAtThreshold | src/failure/MLWE_3n.py:119-122 | the 3n tail with the threshold as a parameter value |
| Reports.ThresholdTailAbove | src/failure/MLWE_3n.py:119-122 | a `None` threshold raises exactly when the law is non-empty |
| Reports.ReportBeyond | src/failure/LWE.py:35-36 | a threshold at or beyond the law's bound makes the tail 0 and the logarithm raise |
| Reports.ReportPerCoefficient | src/failure/RLWE_2n.py:41-42 | `log(ps.n * proba) / log(2)` with its type and domain errors |
| Reports.PerCoefficientBeyond | src/failure/RLWE_2n.py:41-42 | a threshold beyond the law's bound makes the report raise the math domain error |
| Reports.Log1pTerm | src/failure/RLWE_3n.py:89 | `log1p(-2 * t)` succeeds exactly when t < 1/2 |
| Reports.SumLogSuccess | src/failure/RLWE_3n.py:88-89 | the loop returns `LogSuccess(L, tails)` |
| Reports.LogSuccessSpec | src/failure/RLWE_3n.py:88-89 | the sum succeeds exactly when every tail is below 1/2, and is then the sum of the log1p terms |
| Reports.LogSuccessFailsAt | src/failure/RLWE_3n.py:88-89 | one tail at or above 1/2 makes the sum raise |
| Reports.LogSuccessPermutation | src/failure/MLWE_3n.py:177-181 | the order in which `imap_unordered` delivers the terms does not change the sum |
| Reports.TermsSign | src/failure/RLWE_3n.py:88-89 | with a logarithm that is negative below 1, the sum is <= 0, and = 0 exactly when every tail is 0 |
| Reports.ConcludeSign | src/failure/RLWE_3n.py:94-100 | the result is −inf exactly when every tail is 0 and the last term vanishes; otherwise the logarithm's argument is positive |
| Reports.ConcludeZero | src/failure/RLWE_3n.py:97-100 | all-zero tails give −inf |
| Reports.ConcludeFails | src/failure/RLWE_3n.py:88-94 | any tail at or above 1/2 makes `log1p` raise |
| Blocks.SerialNumber | src/failure/MLWE_3n.py:177-181 | for a numeric threshold, summing the block terms in order is `LogSuccess` of the block tails |
| Blocks.SerialNone | src/failure/MLWE_3n.py:119-122 | a `None` threshold raises exactly when some block law is non-empty |
| Blocks.Close | src/failure/MLWE_3n.py:203-226 | the last term and the final branch on the sign of the log-success |
| Blocks.FinishNumber | src/failure/MLWE_3n.py:174-226 | the whole computation is `Conclude` on the block tails and the last tail |
| Blocks.FinishNone | src/failure/MLWE_3n.py:119-122 | a `None` threshold raises `TypeError` exactly when some law is non-empty |
| Blocks.FinishAnyOrder | src/failure/MLWE_3n.py:177-181 | any permutation of the block tails gives the same result |
| Blocks.FinishFails | src/failure/MLWE_3n.py:124 | a tail at or above 1/2 raises the math domain error |
| Blocks.FinishMinusInfinity | src/failure/MLWE_3n.py:220-224 | the result is −inf exactly when every block tail is 0 |
| Blocks.FinishBeyond | src/failure/MLWE_3n.py:174-226 | block laws and last law within m, and a threshold at or beyond m, give −inf |
| Blocks.ZeroTails | src/failure/MLWE_3n.py:119-122 | bounded block laws have zero tails beyond their bound |
| Blocks.TailsInUnit | src/failure/MLWE_3n.py:119-122 | sub-probability block laws have tails in [0, 1] |
| Params.Field | src/failure/LWE.py:10 | reading `ps.x` yields the value, or raises `MissingField(x)` exactly when x is absent |
| Params.AsInt | src/failure/util.py:324 | `bin` accepts an integer and raises a type error on anything else |
| Params.AsNumber | src/failure/util.py:354 | a comparison accepts a number and raises a type error on `None` |
| Params.GetOrNone | src/failure/NTRU.py:40 | `params.get(name)` is the value, or `None` when absent |
| Params.Truncate | src/failure/NTRU.py:40-41 | `int(v)` keeps an integer, truncates a number toward zero and raises on `None` |
| Params.CeilLog2 | src/failure/RLWE_2n.py:11 | `ceil(log(q, 2))` is the least k with 2^k >= q |
| Params.LeastPow2AtLeast | src/failure/RLWE_2n.py:11 | `2 ** ceil(log(q, 2))` exists exactly for q > 0 (else the math domain error), is a power of two and lies in [q, 2q) |
| Params.LeastPow2OfPower | src/failure/RLWE_2n.py:11 | a power of two is its own default |
| Params.Namespace.constructor | src/failure/LWE.py:33 | `SimpleNamespace(**params)` holds the given fields |
| Params.Namespace.Read | src/failure/LWE.py:10 | reading `ps.x` yields the field's value, or raises `MissingField(x)` when it is absent |
| Params.Namespace.DefaultRqk | src/failure/RLWE_2n.py:10-11 | the `rqk` default is written into the namespace, which is left unchanged when Python raises |
| Params.Namespace.DefaultKeCt | src/failure/MLWE_2n.py:9-10 | the `ke_ct` default is written into the namespace |
| Params.RqkDefaultSpec | src/failure/RLWE_2n.py:10-11 | the default raises exactly when `rqk` is missing, or is `None` without a positive integer `q`; it changes only `rqk`, and only when it is `None` |
| Params.RqkDefaultIdempotent | src/failure/RLWE_2n.py:10-11 | applying the default twice is applying it once |
| Params.KeCtDefaultSpec | src/failure/MLWE_2n.py:9-10 | `ke_ct` becomes `ke` exactly when it is `None`; nothing else changes |
| Params.DefaultsCommute | src/failure/MLWE_2n.py:9-12 | the two defaults of `MLWE_2n` can be applied in either order |
| Lwe.LweFinalErrorDistribution | src/failure/LWE.py:4-30 | the builder returns `FinalError(f)`, including its missing-field and type errors |
| Lwe.ComputeFailureProbability | src/failure/LWE.py:32-36 | the module returns `Failure(params)`: the base-2 logarithm of the tail of the final law |
| Lwe.FinalErrorSpec | src/failure/LWE.py:4-30 | the law exists exactly when ks, ke_pk, kr, ke and n are integers, and is then ⟨E, r⟩ + ⟨s, e1⟩ + e2 as iterated products of centered binomials |
| Lwe.LweBounded | src/failure/LWE.py:4-30 | the final law lies within n·(ke_pk·kr + ks·ke) + ke |
| Lwe.LweSymmetric | src/failure/LWE.py:24-28 | the final law is symmetric (the source's "minus is equivalent under symmetry") |
| Lwe.LweMass | src/failure/LWE.py:4-30 | the final law is a sub-probability law, and a probability law when nothing is cleaned |
| Lwe.FailureBeyond | src/failure/LWE.py:32-36 | a threshold at or beyond the bound raises the math domain error (log of 0) |
| Lwr.LwrFinalErrorDistribution | src/failure/LWR.py:7-52 | the builder returns `FinalError(f)` |
| Lwr.ComputeFailureProbability | src/failure/LWR.py:58-68 | the module returns `Failure(params)` |
| Lwr.FinalErrorInts | src/failure/LWR.py:7-52 | for integer fields, p = 0 raises a division by zero and any other p gives the law built from `MsLaw(q, p)` |
| Lwr.LwrBounded | src/failure/LWR.py:7-52 | a rounding law within h gives a final law within n·h·(kr + ks) + h |
| Lwr.LwrInnerSymmetric | src/failure/LWR.py:34-45 | the inner noise is symmetric |
| Lwr.LwrMass | src/failure/LWR.py:7-52 | a sub-probability final law, and mass 1 when nothing is cleaned |
| Lwr.FailureFromBound | src/failure/LWR.py:58-68 | a threshold beyond the law's bound raises the math domain error |
| Lwr.FailureBeyond | src/failure/LWR.py:58-68 | a threshold at or beyond n·(q/2)·(kr+ks) + q/2 raises |
| Lwr.FailureWithoutRounding | src/failure/LWR.py:58-68 | with p >= q there is no rounding noise, so any non-negative threshold raises |
| Rlwr.RlwrFinalErrorDistribution | src/failure/RLWR.py:4-32 | the builder returns `FinalError(f)` |
| Rlwr.ComputeFailureProbability | src/failure/RLWR.py:35-42 | the module returns `Failure(params)` |
| Rlwr.FinalErrorInts | src/failure/RLWR.py:4-32 | for integer fields the law fails with a division by zero exactly when one of rqk, rqc, rq2 is 0 |
| Rlwr.IgnoresKr | src/failure/RLWR.py:4-32 | the builder never reads `kr`, although the schema lists it |
| Rlwr.FailureIgnoresKr | src/failure/RLWR.py:35-42 | nor does the module |
| Rlwr.KeyUncompressed | src/failure/RLWR.py:14-15 | with rqk >= q the public-key term is {0: 1} |
| Rlwr.RlwrBounded | src/failure/RLWR.py:4-32 | rounding laws within h give a final law within 2·n·ks·h + h |
| Rlwr.RlwrInnerSymmetric | src/failure/RLWR.py:18-26 | the inner noise is symmetric |
| Rlwr.RlwrMass | src/failure/RLWR.py:4-32 | a sub-probability final law, and mass 1 when nothing is cleaned |
| Rlwr.FinalErrorBounded | src/failure/RLWR.py:4-32 | with non-zero moduli the law exists and lies within `Bound(n, ks, q/2)` |
| Rlwr.FinalErrorMass | src/failure/RLWR.py:4-32 | with non-zero moduli the law is a sub-probability law |
| Rlwr.FailureBeyond | src/failure/RLWR.py:35-42 | a threshold beyond that bound raises the math domain error |
| TwoN.TwoNBounded | src/failure/MLWE_2n.py:17-54 | the shared 2n final law is bounded by N·(ke·(ks+h) + ks·(keCt+h)) + h + keCt |
| TwoN.TwoNInnerSymmetric | src/failure/MLWE_2n.py:37-46 | its inner noise is symmetric |
| TwoN.TwoNMass | src/failure/MLWE_2n.py:17-54 | a sub-probability law, and mass 1 when nothing is cleaned |
| TwoN.KeyTermUncompressed | src/failure/RLWE_2n.py:17-22 | without public-key rounding the key term is the product law of two centered binomials, e·r |
| Rlwe2n.RlweFinalErrorDistribution | src/failure/RLWE_2n.py:4-33 | the builder returns `FinalError(f)` and leaves the namespace with the `rqk` default written |
| Rlwe2n.BuildAfterDefault | src/failure/RLWE_2n.py:13-33 | the law built after the default |
| Rlwe2n.ComputeFailureProbability | src/failure/RLWE_2n.py:35-42 | the module returns `Failure(params)` |
| Rlwe2n.AfterDefaultInts | src/failure/RLWE_2n.py:13-33 | for integer fields the law fails with a division by zero exactly when a modulus is 0, and is otherwise the 2n law with N = n |
| Rlwe2n.FinalErrorInts | src/failure/RLWE_2n.py:4-33 | the same for the whole builder when `rqk` is set |
| Rlwe2n.DefaultFields | src/failure/RLWE_2n.py:10-11 | the default sets `rqk` to the least power of two at or above q and keeps the other fields |
| Rlwe2n.DefaultKeyUncompressed | src/failure/RLWE_2n.py:10-19 | with the default, the public-key rounding law is {0: 1} |
| Rlwe2n.FinalErrorBounded | src/failure/RLWE_2n.py:4-33 | the final law lies within the 2n bound with h = q/2 |
| Rlwe2n.FinalErrorMass | src/failure/RLWE_2n.py:4-33 | the final law is a sub-probability law |
| Rlwe2n.FailureBeyond | src/failure/RLWE_2n.py:35-42 | a threshold beyond the bound raises the math domain error |
| Rlwe2n.SchemaNames | src/parameter_set.py:32-33 | the correctness schema of `RLWE_2n` is n, ks, ke, q, rqc, rq2, rqk, threshold |
| Rlwe2n.DefaultIgnores | src/failure/RLWE_2n.py:10-11 | the default reads only `rqk` and `q` |
| Rlwe2n.AfterDefaultIgnores | src/failure/RLWE_2n.py:13-33 | the builder reads only schema fields |
| Rlwe2n.PerCoefficientIgnores | src/failure/RLWE_2n.py:41-42 | the report reads only `n` and `threshold` |
| Rlwe2n.IgnoresOtherFields | src/failure/RLWE_2n.py:4-42 | a field outside the correctness schema never changes the result |
| Mlwe2n.MlweFinalErrorDistribution | src/failure/MLWE_2n.py:4-56 | the builder returns `FinalError(f)` and leaves the namespace with both defaults written |
| Mlwe2n.BuildAfterDefaults | src/failure/MLWE_2n.py:17-56 | the law built after the defaults |
| Mlwe2n.ComputeFailureProbability | src/failure/MLWE_2n.py:59-67 | the module returns `Failure(params)` |
| Mlwe2n.AfterDefaultsInts | src/failure/MLWE_2n.py:17-56 | for integer fields the law fails exactly when a modulus is 0, and is otherwise the 2n law with N = m·n |
| Mlwe2n.CountErrors | src/failure/MLWE_2n.py:43-44 | `m` and `n` are both read before either must be an int: a missing field is reported first, then a non-integer m, then a non-integer n |
| Mlwe2n.FinalErrorInts | src/failure/MLWE_2n.py:4-56 | the same for the whole builder |
| Mlwe2n.DefaultsFields | src/failure/MLWE_2n.py:9-12 | the defaults set `ke_ct` to `ke` and `rqk` to the least power of two at or above q |
| Mlwe2n.DefaultsUncompressed | src/failure/MLWE_2n.py:9-31 | with both defaults the law uses `ke` for `ke_ct` and no public-key rounding |
| Mlwe2n.RankOneIsRing | src/failure/MLWE_2n.py:43-44 | with m = 1 and `ke_ct` = `ke` the MLWE law is the RLWE_2n law |
| Mlwe2n.FinalErrorBounded | src/failure/MLWE_2n.py:4-56 | the final law lies within the 2n bound with N = m·n |
| Mlwe2n.FinalErrorMass | src/failure/MLWE_2n.py:4-56 | the final law is a sub-probability law |
| Mlwe2n.FailureBeyond | src/failure/MLWE_2n.py:59-67 | a threshold beyond the bound raises the math domain error |
| Ntru.CalculateDecryptionFailureProbability | src/failure/NTRU.py:9-34 | the computation returns `FailureProbability(q)`, the scan tail of the one-shot law at q // 2 − 2 |
| Ntru.ComputeFailureProbability | src/failure/NTRU.py:36-47 | the module returns `Summary(params)`: n, q and the failure probability it formats |
| Ntru.SummaryCases | src/failure/NTRU.py:40-43 | the module raises exactly when n or q is absent or `None` (n first); otherwise the probability is that of the truncated q |
| Ntru.TFmLaw | src/failure/NTRU.py:21 | `t_fm` is a symmetric probability law within [−1, 1] |
| Ntru.TGrLaw | src/failure/NTRU.py:25 | `t_gr` is a symmetric probability law within [−3, 3] on multiples of 3 |
| Ntru.OneShotMultiples | src/failure/NTRU.py:21-27 | both parts and the one-shot law live on multiples of 3 |
| Ntru.DfmShape | src/failure/NTRU.py:21-23 | the f·m part lies within 3·|wt| and is symmetric |
| Ntru.DgrShape | src/failure/NTRU.py:25-26 | the g·r part lies within 3·|wt| and is symmetric |
| Ntru.OneShotShape | src/failure/NTRU.py:21-27 | the one-shot law lies within 6·|wt| and is symmetric |
| Ntru.OneShotMass | src/failure/NTRU.py:21-27 | the one-shot law is a sub-probability law; when neither iteration drops a key, `Dfm`, `Dgr` and the one-shot law have mass 1 |
| Ntru.FailureNonNeg | src/failure/NTRU.py:33 | the failure probability is non-negative |
| Ntru.FailureBeyond | src/failure/NTRU.py:29-33 | when 6·|wt| <= the threshold the failure probability is 0 |
| Ntru.SmallModulusNeverFails | src/failure/NTRU.py:9-34 | for 16 <= q < 48 the failure probability is 0 |
| Rlwe3n.BuildTable1 | src/failure/RLWE_3n.py:21-32 | the four nested loops build the law of a1·a2 + b1·b2 over ψ₁ |
| Rlwe3n.BuildTable2 | src/failure/RLWE_3n.py:34-45 | the law of a1·b1 + b2·(a1 + a2) over ψ₁ |
| Rlwe3n.Table1Law | src/failure/RLWE_3n.py:21-32 | table 1 is a symmetric probability law within [−2, 2] |
| Rlwe3n.Table2Law | src/failure/RLWE_3n.py:34-45 | table 2 is a symmetric probability law within [−3, 3] |
| Rlwe3n.BlockLaws | src/failure/RLWE_3n.py:79 | one block law law1^(2i) ∗ law2^(n − 2i) for each i in range(n // 2) |
| Rlwe3n.ComputeSingleI | src/failure/RLWE_3n.py:50-62 | one block: the tail above the threshold of that block law |
| Rlwe3n.MapBlocks | src/failure/RLWE_3n.py:79-85 | the pool's map returns, in order of i, the tail of every block i in range(n // 2) |
| Rlwe3n.Evaluate | src/failure/RLWE_3n.py:79-100 | after the tables, the result is `Conclude` on the block tails, the last tail and n // 2 |
| Rlwe3n.ComputeFailureProbability | src/failure/RLWE_3n.py:64-102 | the module returns `Failure(L, params)` |
| Rlwe3n.BlockZeroIsLast | src/failure/RLWE_3n.py:92 | block 0 is the last law law2^n |
| Rlwe3n.LastTailIsFirst | src/failure/RLWE_3n.py:92-93 | the last tail repeats the tail of block 0 |
| Rlwe3n.BlockBounded | src/failure/RLWE_3n.py:56-59 | each block lies within 3n |
| Rlwe3n.TablesBlocksBounded | src/failure/RLWE_3n.py:79-93 | tables within 2 and 3 give every block and the last law within 3n |
| Rlwe3n.BlocksBounded | src/failure/RLWE_3n.py:79-93 | every block and the last law lie within 3n |
| Rlwe3n.BlockSubProbability | src/failure/RLWE_3n.py:56-59 | a block built from sub-probability tables is a sub-probability law |
| Rlwe3n.TailsNonNeg | src/failure/RLWE_3n.py:61 | every tail lies in [0, 1] |
| Rlwe3n.FieldErrors | src/failure/RLWE_3n.py:69-76 | missing n or q raise in that order; a `None` q and a non-integer n raise type errors |
| Rlwe3n.IgnoresOtherFields | src/failure/RLWE_3n.py:69-70 | only n and q are read; the schema's `psi_1` and `threshold` are not |
| Rlwe3n.LargeTailRaises | src/failure/RLWE_3n.py:88-94 | a tail at or above 1/2 raises the math domain error |
| Rlwe3n.MinusInfinityExactly | src/failure/RLWE_3n.py:97-100 | with tails below 1/2 the result is −inf exactly when every block tail is 0, else a logarithm of a positive number |
| Rlwe3n.NeverFailsBeyond | src/failure/RLWE_3n.py:64-102 | 3n <= floor((q−3)/6) gives −inf |
| Tables.FillFourth | src/failure/MLWE_3n.py:27-29 | the innermost loop adds one row of quadruples |
| Tables.FillThird | src/failure/MLWE_3n.py:26-29 | the third loop adds its rows |
| Tables.FillSecond | src/failure/MLWE_3n.py:25-29 | the second loop adds its rows |
| Tables.FillTable | src/failure/MLWE_3n.py:22-31 | the four nested loops return `Table(A, B, key)`, the law of the key over independent a1, a2 ~ A and b1, b2 ~ B |
| TableLaws.TableMassPairs | src/failure/MLWE_3n.py:22-31 | the table's mass is the product of the pair masses of A and of B |
| TableLaws.TableUnitMass | src/failure/MLWE_3n.py:22-31 | tables of probability laws have mass 1 |
| TableLaws.TableNonNeg | src/failure/MLWE_3n.py:22-31 | tables of non-negative laws are non-negative |
| TableLaws.SquareTableBounded | src/failure/MLWE_3n.py:28 | a1·a2 + b1·b2 lies within m² + k² |
| TableLaws.CrossTableBounded | src/failure/MLWE_3n.py:47 | a1·b1 + b2·(a1 + a2) lies within m·k + k·2m |
| TableLaws.SquareTableSymmetric | src/failure/MLWE_3n.py:14-31 | symmetric A and B give a symmetric square table |
| TableLaws.CrossTableSymmetric | src/failure/MLWE_3n.py:34-50 | a symmetric A gives a symmetric cross table |
| Mlwe3n.BuildSeTable | src/failure/MLWE_3n.py:56-77 | an s·(e1 + e'') table: the table over G and G ∗ rounding law, with the rounding errors |
| Mlwe3n.BuildParts | src/failure/MLWE_3n.py:152-159 | the four tables and the linear law `PartsOf(G, q, rqc, rq2)` |
| Mlwe3n.ComputeSingleI | src/failure/MLWE_3n.py:105-124 | one block: the log1p term of the tail of that block law |
| Mlwe3n.BlockTerm | src/failure/MLWE_3n.py:105-124 | the term of block i |
| Mlwe3n.BlockAt | src/failure/MLWE_3n.py:169-172 | block i of the argument list is `Block(P, n, k, i)` |
| Mlwe3n.BuildLast | src/failure/MLWE_3n.py:192-201 | the last law (law2 ∗ law4)^(n//2 · k) ∗ D_lin |
| Mlwe3n.SumBlocks | src/failure/MLWE_3n.py:174-182 | the loop over the blocks returns their serial sum |
| Mlwe3n.AddBlock | src/failure/MLWE_3n.py:181 | one step of that loop |
| Mlwe3n.Evaluate | src/failure/MLWE_3n.py:169-226 | the computation after the tables returns `Outcome(L, P, n, k, threshold)` |
| Mlwe3n.ComputeFailureProbability | src/failure/MLWE_3n.py:129-226 | the module returns `Failure(L, Gauss, params)` |
| Mlwe3n.Sigma | src/failure/util.py:97-107 | the Gaussian builder accepts exactly a nonzero number: None is a type error and 0 a division by zero |
| Mlwe3n.PartsOfInts | src/failure/MLWE_3n.py:152-159 | rqc = 0 and then rq2 = 0 raise a division by zero; otherwise the parts are built from the two rounding laws |
| Mlwe3n.PartsExact | src/failure/MLWE_3n.py:152-159 | with rqc, rq2 >= q the se tables equal the re tables and D_lin is G |
| Mlwe3n.PartsProbability | src/failure/MLWE_3n.py:14-100 | probability laws give four tables and a linear law of mass 1 |
| Mlwe3n.PartsSymmetric | src/failure/MLWE_3n.py:14-100 | a symmetric G gives symmetric re tables and cross se table; and a symmetric linear law with a symmetric rounding law |
| Mlwe3n.ReTablesBounded | src/failure/MLWE_3n.py:14-50 | G within g gives re tables within 2g² and 3g² |
| Mlwe3n.SeTablesBounded | src/failure/MLWE_3n.py:56-100 | G within g and the rounding law within r − g give se tables within g² + r² and 3gr |
| Mlwe3n.LinBounded | src/failure/MLWE_3n.py:157-159 | D_lin lies within g + e |
| Mlwe3n.BlockZeroIsLast | src/failure/MLWE_3n.py:192-201 | block 0 is the last law |
| Mlwe3n.CountsSplit | src/failure/MLWE_3n.py:108-113 | i·k + (n//2 − i)·k convolutions make n//2 · k, in absolute value |
| Mlwe3n.BlocksBounded | src/failure/MLWE_3n.py:105-124 | parts within b, c, d give every block and the last law within `Reach(n, k, b, c, d)` |
| Mlwe3n.BlocksSubProbability | src/failure/MLWE_3n.py:105-124 | sub-probability parts give sub-probability blocks and last law |
| Mlwe3n.LastIsFirstOf | src/failure/MLWE_3n.py:192-208 | the last law is block 0, whenever there is a block |
| Mlwe3n.OutcomeNumber | src/failure/MLWE_3n.py:174-226 | for a numeric threshold the result is `Conclude` on the block tails and the last tail |
| Mlwe3n.OutcomeAnyOrder | src/failure/MLWE_3n.py:177-181 | any order of the block tails gives the same result |
| Mlwe3n.OutcomeNone | src/failure/MLWE_3n.py:119-122 | a `None` threshold raises a type error exactly when some law is non-empty |
| Mlwe3n.OutcomeMinusInfinity | src/failure/MLWE_3n.py:220-224 | with tails below 1/2 the result is −inf exactly when every block tail is 0 |
| Mlwe3n.OutcomeFails | src/failure/MLWE_3n.py:124 | a tail at or above 1/2 raises the math domain error |
| Mlwe3n.OutcomeBeyond | src/failure/MLWE_3n.py:169-226 | a threshold at or beyond `Reach` gives −inf |
| Mlwe3n.FieldErrors | src/failure/MLWE_3n.py:144-147 | the missing fields raise in the order n, q, k, threshold, psi_1, rqc, rq2 |
| Mlwe3n.SigmaErrors | src/failure/MLWE_3n.py:146-152 | with every field present, a None `psi_1` raises a type error and a zero one a division by zero |
| Mlwe3n.FailureOfInts | src/failure/MLWE_3n.py:144-159 | with a nonzero σ and integer moduli, a non-integer n or k raises a type error, and otherwise the result is `Outcome` of the parts built from `Gauss(σ)` |
| Mlwe3n.IgnoresOtherFields | src/failure/MLWE_3n.py:144-147 | a field outside the schema never changes the result |
| Mlwe3n.NeverFailsBeyond | src/failure/MLWE_3n.py:129-226 | `Gauss(σ)` within g and a threshold beyond the reach of the parts give −inf |
| Mlwe3n.GaussianPartsWithin | src/failure/MLWE_3n.py:14-100 | the parts lie within 3g², 3r² and r |
| Dispatch.SelectFailureModule | src/decryption_failure_calculator.py:23-79 | a name selects a module exactly when it is one of the ten names; the nine same-named schemes get "failure." followed by their name, MLWE_ss gets "failure.MLWE_X^n-X+1" |
| Dispatch.SelectInjective | src/decryption_failure_calculator.py:23-79 | different names never select the same module |
| Dispatch.ModulesMatchParameterLists | src/decryption_failure_calculator.py:23-79 | a scheme has a module exactly when it has a correctness parameter list |
| Dispatch.Import | src/decryption_failure_calculator.py:15 | the modules this model holds are loaded by name; any other name is kept |
| Dispatch.Catch | src/decryption_failure_calculator.py:16-20 | a result comes back as it is, and an exception as its message |
| Dispatch.ComputeFailureProbability | src/decryption_failure_calculator.py:5-20 | the dispatcher returns `Outcome(L, Gauss, algorithm, params)` |
| Dispatch.NoModuleExactly | src/decryption_failure_calculator.py:12-13 | the no-module message comes exactly for names without a module |
| Dispatch.RouteNtru | src/decryption_failure_calculator.py:30-31 | NTRU raises exactly when n or q is absent or `None`, and otherwise reports its failure probability |
| Dispatch.RouteLwe | src/decryption_failure_calculator.py:35-36 | LWE reaches the LWE module, with its exceptions caught |
| Dispatch.RouteRlwe2n | src/decryption_failure_calculator.py:41-42 | RLWE_2n reaches its module |
| Dispatch.RouteRlwe3n | src/decryption_failure_calculator.py:43-44 | RLWE_3n reaches its module |
| Dispatch.RouteMlwe2n | src/decryption_failure_calculator.py:50-51 | MLWE_2n reaches its module |
| Dispatch.RouteMlwe3n | src/decryption_failure_calculator.py:52-53 | MLWE_3n reaches its module |
| Dispatch.RouteLwr | src/decryption_failure_calculator.py:64-65 | LWR reaches its module |
| Dispatch.RouteRlwr | src/decryption_failure_calculator.py:70-71 | RLWR reaches its module |
| Dispatch.RouteMlwr | src/decryption_failure_calculator.py:76-77 | MLWR selects a module outside this model |
| Dispatch.RouteMlweSs | src/decryption_failure_calculator.py:58-59 | MLWE_ss selects a module outside this model |
| ParameterSet.PerformanceParams | src/parameter_set.py:5-23 | a list exactly for the nine performance schemes; each starts with n, ends with eta and has no repeats |
| ParameterSet.CorrectnessParams | src/parameter_set.py:26-54 | a list exactly for the ten correctness schemes; each starts with n; NTRU's is [n, q] and every other ends with threshold |
| ParameterSet.GetAlgorithmParams | src/parameter_set.py:3-55 | a non-empty list exactly for a known evaluation type and scheme, else []; the list starts with n, has no repeats and ends as above |
| ParameterSet.CorrectnessDistinct | src/parameter_set.py:26-54 | no correctness list repeats a name |
| ParameterSet.SsCorrectnessOnly | src/parameter_set.py:41-42 | MLWE_ss has a correctness list but no performance list |
| ParameterSet.PerformanceVariantsAgree | src/parameter_set.py:10-17 | the 2n and 3n variants share their performance lists |

## Left out

- Floating point: the model uses exact reals. Rounding of the `float` sums and
  products, and the float behaviour of `1.0 * rq * x / q` in `mod_switch`, are
  not modelled. The switch is exact rational arithmetic followed by
  round-half-even.
- `math.log` and `math.log1p` are a function parameter `L`. Their properties
  enter only as the hypothesis `Log1pShape(L)`: negative below 1 and 0 only at 1.
  The final `log(-log_p_success, 2)` of the 3n modules is reported by its
  argument (`Reported.Log2Of`), and `float("-inf")` is `Reported.MinusInfinity`.
- `Params.LeastPow2AtLeast`: is the exact least power of two at or above q.
  The float `ceil(log(q, 2))` can overshoot by one on some large powers of two.
  A `float` q in the `rqk` default (an integer is required here) is a type error.
- `gaussian_center_weight` (erf) and `build_discrete_gaussian_law` (exp):
  `MLWE_3n` takes the discrete Gaussian law as a parameter `Gauss`, a
  function of σ. Only the builder's exceptions are modelled (`Mlwe3n.Sigma`:
  None and 0). Only the facts needed (mass 1, symmetry, a bound) are assumed
  of `Gauss(σ)`, as hypotheses of lemmas.
- Chains.BuildMsOf: only an int rounding modulus is modelled. A `float` rqk, rqc,
  rq2 or p is reported as a type error, whereas `mod_switch` would compute
  with it in floating point (`round(1.0 * rq * x / q) % rq`).
- `law_convolution_fft` and `power_law_convolution_fft` (numpy FFT) are not
  called by any failure module and are not part of this model.
- The commented-out `rlwe_3n_failure_probability` and `build_table1/2(sigma, q, rq)`
  texts of `RLWE_3n.py` and `MLWE_3n.py` are string literals, not code, and are
  not part of this model.
- `multiprocessing.Pool`: the block terms are computed sequentially. Their
  order is free (`Reports.LogSuccessPermutation`,
  `Mlwe3n.OutcomeAnyOrder`), which covers `imap_unordered`. The progress
  `print`s and `traceback.print_exc` are I/O and are left out.
- `Ntru.ComputeFailureProbability`: returns n, q and the failure probability
  instead of the formatted string. The string's `-mp.log(p, 2)`, its 50-digit
  mpmath precision and the unused `log2` helper (NTRU.py:4-7) are left out.
  `Df` and `Dg` (NTRU.py:12-18) are computed and never used, so they are left out.
- `Scaling.DistScale`: scales by an integer c, which is what NTRU passes (9 and
  3). A fractional c, where `round(10 * a * c) / 10` would round, is not modelled.
- The module `failure.MLWE_X^n-X+1` (for `MLWE_ss`) and `failure.MLWR` are not
  part of this model. The dispatcher routes them to `Answer.NotModelled`.
- `importlib.import_module` is a lookup from the module name to the modelled
  module, and `Exception` is the `Outcomes.Error` a module returns. The
  message strings (in Chinese) are represented by the `Answer` constructors,
  not by their text.
- `Dispatch.SelectFailureModule`: takes the name alone, because
  `_select_failure_module` never reads its `params` argument.
- `Iteration.IterLawConvolution`: a non-integer count is a type error of `bin`.
  A `float` k in `MLWE_3n` (`i * k`) is therefore an error, although Python
  accepts a float there only to fail in `bin` as well.
- Chains, Lwe, Lwr, Rlwr, TwoN, Ntru: a law of mass exactly 1 is proved only
  when no cleaning step drops a key (`Unpruned`). Otherwise the result is a
  sub-probability law that has lost at most 2^−300 per dropped key
  (`Laws.CleanMass`).

## Findings

| source | as written | input that shows it | evidently intended | confidence | as-written member | corrected member |
|---|---|---|---|---|---|---|
| src/failure/util.py:358-359 | `tail_probability` sums D[i] + D[−i] for i in range(ceil(t), max key). That counts \|x\| = t for an integer t, counts the key 0 twice when t = 0, and never counts the largest key itself | D = {−1: 1/4, 0: 1/2, 1: 1/4}: t = 0 gives 1 and t = 1/2 gives 0, where P(\|X\| > t) is 1/2 for both | P(\|X\| > t) as the docstring says, the tail the 3n modules compute inline | not executed | Tails.TailProbabilityAtZero | Tails.TailMass |
| src/failure/util.py:354-355 | `if t >= ma: return 0.0`, followed by a range that stops below the largest key | the same law with t = 1/2 | every key with \|x\| > t is counted | not executed | Tails.TailProbabilityBelowMax | Tails.TailMass |

The LWE, LWR, RLWR, RLWE_2n, MLWE_2n and NTRU modules call `tail_probability`
itself, so their models keep the scan as written (`Tails.TailProbabilityOf`).
The corrected tail `Tails.TailAbove` is the one the 3n modules and their models use.
The properties intended of `tail_probability` are proved about it:

- non-negative;
- at most the mass;
- non-increasing in t;
- the whole mass below 0;
- 0 beyond the support;
- every key above t counted.
