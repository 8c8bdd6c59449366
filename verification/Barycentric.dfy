// Evaluation of a round univariate, given by its values at 0..8, at the round challenge.
// The nine denominators are the literals of computeNextTargetSum.
module Barycentric {
  import opened Honk
  import opened PrimeField
  import opened Fermat
  import opened Polynomial
  import opened Wrappers

  const LENGTH: nat := ZK_BATCHED_RELATION_PARTIAL_LENGTH

  type Univariate = v: seq<Fr> | |v| == LENGTH witness seq(LENGTH, _ => ZERO)

  const DENOMINATORS: Univariate := [
    Red(0x0000000000000000000000000000000000000000000000000000000000009d80),
    Red(0x30644e72e131a029b85045b68181585d2833e84879b9709143e1f593efffec51),
    Red(0x00000000000000000000000000000000000000000000000000000000000005a0),
    Red(0x30644e72e131a029b85045b68181585d2833e84879b9709143e1f593effffd31),
    Red(0x0000000000000000000000000000000000000000000000000000000000000240),
    Red(0x30644e72e131a029b85045b68181585d2833e84879b9709143e1f593effffd31),
    Red(0x00000000000000000000000000000000000000000000000000000000000005a0),
    Red(0x30644e72e131a029b85045b68181585d2833e84879b9709143e1f593efffec51),
    Red(0x0000000000000000000000000000000000000000000000000000000000009d80)
  ]

  ghost predicate IsNode(x: Fr) {
    exists i :: 0 <= i < LENGTH && x == Red(i)
  }

  // Lagrange basis polynomials: the product of X - j over j < n, j != i
  ghost function Basis(i: nat, n: nat): (c: Poly)
    ensures |c| == 1 + n - (if i < n then 1 else 0)
  {
    if n == 0 then [ONE]
    else if n - 1 == i then Basis(i, n - 1)
    else TimesLinear(Basis(i, n - 1), Red(n - 1))
  }

  ghost function InterpolantUpTo(v: Univariate, n: nat): (c: Poly)
    requires n <= LENGTH
    ensures |c| == LENGTH
  {
    if n == 0 then seq(LENGTH, _ => ZERO)
    else PolyAdd(InterpolantUpTo(v, n - 1),
                 PolyScale(Mul(v[n - 1], Recip(DENOMINATORS[n - 1])), Basis(n - 1, LENGTH)))
  }

  // The polynomial with nine coefficients through (0, v[0]), ..., (8, v[8])
  ghost function Interpolant(v: Univariate): (c: Poly)
    ensures |c| == LENGTH
  {
    InterpolantUpTo(v, LENGTH)
  }

  // The same products over the integers, at an integer point
  function Gap(k: int, i: nat, n: nat): int {
    if n == 0 then 1
    else if n - 1 == i then Gap(k, i, n - 1)
    else (k - (n - 1)) * Gap(k, i, n - 1)
  }

  lemma {:induction false} BasisAtInteger(k: int, i: nat, n: nat)
    ensures Eval(Basis(i, n), Red(k)) == Red(Gap(k, i, n))
  {
    hide Add, Mul, Sub, Red, Times, Eval, TimesLinear;
    if n == 0 {
      EvalConstant(ONE, Red(k));
    } else {
      BasisAtInteger(k, i, n - 1);
      if n - 1 != i {
        EvalTimesLinear(Basis(i, n - 1), Red(n - 1), Red(k));
        Ring();
      }
    }
  }

  lemma {:induction false} GapVanishes(k: nat, i: nat, n: nat)
    requires k != i && k < n
    ensures Gap(k, i, n) == 0
  {
    if k < n - 1 { GapVanishes(k, i, n - 1); }
  }

  // The hard-coded denominators are the products of k - j over the other nodes j.
  lemma DenominatorsCorrect(k: nat)
    requires k < LENGTH
    ensures DENOMINATORS[k] == Eval(Basis(k, LENGTH), Red(k))
    ensures DENOMINATORS[k] != ZERO
  {
    BasisAtInteger(k, k, LENGTH);
    DenominatorLiteral(k);
  }

  lemma DenominatorLiteral(k: nat)
    requires k < LENGTH
    ensures DENOMINATORS[k] == Red(Gap(k, k, LENGTH)) != ZERO
  {
    if k == 0 { assert Gap(0, 0, 9) == 40320; }
    if k == 1 { assert Gap(1, 1, 9) == -5040; }
    if k == 2 { assert Gap(2, 2, 9) == 1440; }
    if k == 3 { assert Gap(3, 3, 9) == -720; }
    if k == 4 { assert Gap(4, 4, 9) == 576; }
    if k == 5 { assert Gap(5, 5, 9) == -720; }
    if k == 6 { assert Gap(6, 6, 9) == 1440; }
    if k == 7 { assert Gap(7, 7, 9) == -5040; }
    if k == 8 { assert Gap(8, 8, 9) == 40320; }
  }

  lemma {:induction false} InterpolantUpToHits(v: Univariate, n: nat, k: nat)
    requires IsPrime(MODULUS) && n <= LENGTH && k < LENGTH
    ensures Eval(InterpolantUpTo(v, n), Red(k)) == if k < n then v[k] else ZERO
  {
    hide Add, Mul, Sub, Red, Eval, Basis, DENOMINATORS;
    var x := Red(k);
    if n == 0 {
      ZeroEval(InterpolantUpTo(v, 0), x);
    } else {
      var i := n - 1;
      InterpolantUpToHits(v, i, k);
      var w := Mul(v[i], Recip(DENOMINATORS[i]));
      EvalAdd(InterpolantUpTo(v, i), PolyScale(w, Basis(i, LENGTH)), x);
      EvalScale(w, Basis(i, LENGTH), x);
      RingBasics(v[i]);
      RingBasics(w);
      RingBasics(Eval(InterpolantUpTo(v, i), x));
      if i == k {
        DenominatorsCorrect(k);
        RecipCorrect(DENOMINATORS[k]);
        MulAssoc(v[k], Recip(DENOMINATORS[k]), DENOMINATORS[k]);
        MulComm(Recip(DENOMINATORS[k]), DENOMINATORS[k]);
      } else {
        BasisAtInteger(k, i, LENGTH);
        GapVanishes(k, i, LENGTH);
      }
    }
  }

  lemma InterpolantHits(v: Univariate, k: nat)
    requires IsPrime(MODULUS) && k < LENGTH
    ensures Eval(Interpolant(v), Red(k)) == v[k]
  {
    InterpolantUpToHits(v, LENGTH, k);
  }

  // A polynomial with nine coefficients is determined by its values at the nine nodes.
  lemma InterpolantUnique(v: Univariate, c: Poly, x: Fr)
    requires IsPrime(MODULUS) && |c| == LENGTH
    requires forall k :: 0 <= k < LENGTH ==> Eval(c, Red(k)) == v[k]
    ensures Eval(Interpolant(v), x) == Eval(c, x)
  {
    hide Add, Mul, Sub, Red, Eval;
    if Eval(Interpolant(v), x) != Eval(c, x) {
      forall y | y in Range(0, LENGTH) ensures Eval(Interpolant(v), y) == Eval(c, y) {
        var k :| 0 <= k < LENGTH && y == Red(k);
        InterpolantHits(v, k);
      }
      RangeCount(0, LENGTH);
      AgreementBound(Interpolant(v), c, Range(0, LENGTH), x);
    }
  }

  // The product of x - j over j < n
  function Vanishing(x: Fr, n: nat): Fr {
    if n == 0 then ONE else Mul(Vanishing(x, n - 1), Sub(x, Red(n - 1)))
  }

  lemma {:induction false} VanishingFactors(x: Fr, i: nat, n: nat)
    ensures i < n ==> Vanishing(x, n) == Mul(Sub(x, Red(i)), Eval(Basis(i, n), x))
    ensures n <= i ==> Vanishing(x, n) == Eval(Basis(i, n), x)
  {
    hide Add, Mul, Sub, Red, Eval, TimesLinear;
    if n == 0 {
      EvalConstant(ONE, x);
    } else {
      VanishingFactors(x, i, n - 1);
      var a, b := Sub(x, Red(n - 1)), Eval(Basis(i, n - 1), x);
      if n - 1 == i {
        MulComm(a, b);
      } else {
        EvalTimesLinear(Basis(i, n - 1), Red(n - 1), x);
        MulComm(a, b);
        MulAssoc(Sub(x, Red(i)), b, a);
      }
    }
  }

  // One summand of the barycentric formula, scaled by the vanishing product
  lemma BarycentricTerm(x: Fr, i: nat, value: Fr, inverse: Fr)
    requires IsPrime(MODULUS) && i < LENGTH
    requires Mul(Mul(DENOMINATORS[i], Sub(x, Red(i))), inverse) == ONE
    ensures Mul(Mul(value, inverse), Vanishing(x, LENGTH))
         == Mul(Mul(value, Recip(DENOMINATORS[i])), Eval(Basis(i, LENGTH), x))
  {
    hide Add, Mul, Sub, Red, Eval, Basis, DENOMINATORS, Vanishing, Recip;
    var d, g, l := DENOMINATORS[i], Sub(x, Red(i)), Eval(Basis(i, LENGTH), x);
    VanishingFactors(x, i, LENGTH);
    DenominatorsCorrect(i);
    RecipCorrect(d);
    TermIdentity(value, d, Recip(d), g, inverse, l);
  }

  lemma TermIdentity(value: Fr, d: Fr, d': Fr, g: Fr, inverse: Fr, l: Fr)
    requires IsPrime(MODULUS) && d != ZERO
    requires Mul(d, d') == ONE && Mul(Mul(d, g), inverse) == ONE
    ensures Mul(Mul(value, inverse), Mul(g, l)) == Mul(Mul(value, d'), l)
  {
    hide Mul, Red;
    MulAssoc(d, g, inverse);
    Cancel(d, Mul(g, inverse), d');
    MulComm(g, inverse);
    MulAssoc(Mul(value, inverse), g, l);
    MulAssoc(value, inverse, g);
  }

  lemma DenominatorZeroIffNode(x: Fr, i: nat)
    requires IsPrime(MODULUS) && i < LENGTH
    ensures Mul(DENOMINATORS[i], Sub(x, Red(i))) == ZERO <==> x == Red(i)
  {
    hide Mul, Sub, Red, DENOMINATORS;
    DenominatorsCorrect(i);
    SubZeroIffEqual(x, Red(i));
    RingBasics(DENOMINATORS[i]);
    if Mul(DENOMINATORS[i], Sub(x, Red(i))) == ZERO {
      NoZeroDivisors(DENOMINATORS[i], Sub(x, Red(i)));
    }
  }

  // The new target sum is the value at the challenge of the one polynomial of degree at most
  // eight through the nine sent values; a challenge among 0..8 makes an inversion revert.
  method ComputeNextTargetSum(roundUnivariate: Univariate, roundChallenge: Fr) returns (result: Option<Fr>)
    requires IsPrime(MODULUS)
    ensures result.None? <==> IsNode(roundChallenge)
    ensures result.Some? ==> result.value == Eval(Interpolant(roundUnivariate), roundChallenge)
  {
    hide Add, Mul, Sub, Red, Eval, Basis, DENOMINATORS, Invert;
    var numeratorValue := ONE;
    for i := 0 to LENGTH
      invariant numeratorValue == Vanishing(roundChallenge, i)
    {
      numeratorValue := Mul(numeratorValue, Sub(roundChallenge, Red(i)));
    }

    var denominatorInverses := new Fr[LENGTH](_ => ZERO);
    for i := 0 to LENGTH
      invariant forall k :: 0 <= k < i ==> roundChallenge != Red(k)
      invariant forall k :: 0 <= k < i ==>
        Mul(Mul(DENOMINATORS[k], Sub(roundChallenge, Red(k))), denominatorInverses[k]) == ONE
    {
      var denominator := Mul(DENOMINATORS[i], Sub(roundChallenge, Red(i)));
      InvertCorrect(denominator);
      DenominatorZeroIffNode(roundChallenge, i);
      var inverse := Invert(denominator);
      if inverse.None? {
        return None;
      }
      denominatorInverses[i] := inverse.value;
    }

    var targetSum := ZERO;
    ghost var n := numeratorValue;
    ZeroEval(InterpolantUpTo(roundUnivariate, 0), roundChallenge);
    RingBasics(n);
    for i := 0 to LENGTH
      invariant forall k :: 0 <= k < LENGTH ==>
        Mul(Mul(DENOMINATORS[k], Sub(roundChallenge, Red(k))), denominatorInverses[k]) == ONE
      invariant Mul(targetSum, n) == Eval(InterpolantUpTo(roundUnivariate, i), roundChallenge)
    {
      var term := Mul(roundUnivariate[i], denominatorInverses[i]);
      SumStep(roundUnivariate, roundChallenge, i, targetSum, denominatorInverses[i]);
      targetSum := Add(targetSum, term);
    }
    return Some(Mul(targetSum, numeratorValue));
  }

  lemma SumStep(v: Univariate, x: Fr, i: nat, sum: Fr, inverse: Fr)
    requires IsPrime(MODULUS) && i < LENGTH
    requires Mul(sum, Vanishing(x, LENGTH)) == Eval(InterpolantUpTo(v, i), x)
    requires Mul(Mul(DENOMINATORS[i], Sub(x, Red(i))), inverse) == ONE
    ensures Mul(Add(sum, Mul(v[i], inverse)), Vanishing(x, LENGTH)) == Eval(InterpolantUpTo(v, i + 1), x)
  {
    hide Add, Mul, Sub, Red, Eval, Basis, DENOMINATORS, Vanishing, Recip;
    var n := Vanishing(x, LENGTH);
    var w := Mul(v[i], Recip(DENOMINATORS[i]));
    BarycentricTerm(x, i, v[i], inverse);
    EvalAdd(InterpolantUpTo(v, i), PolyScale(w, Basis(i, LENGTH)), x);
    EvalScale(w, Basis(i, LENGTH), x);
    Distrib(n, sum, Mul(v[i], inverse));
    MulComm(n, Add(sum, Mul(v[i], inverse)));
    MulComm(n, sum);
    MulComm(n, Mul(v[i], inverse));
  }
}
