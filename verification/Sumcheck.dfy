// verifySumcheck: the rounds, its completeness, and the algebraic core of its soundness.
module Sumcheck {
  import opened Honk
  import opened PrimeField
  import opened Polynomial
  import opened Barycentric
  import opened Multilinear
  import opened PowerPolynomial
  import opened RowDisabling
  import opened Wrappers

  // The parts of the proof that sumcheck reads
  datatype SumcheckProof = SumcheckProof(
    libraSum: Fr,
    univariates: seq<Univariate>,
    evaluations: seq<Fr>,
    libraEvaluation: Fr)

  // The parts of the transcript that sumcheck reads
  datatype Challenges = Challenges(
    libraChallenge: Fr,
    gateChallenges: seq<Fr>,
    u: seq<Fr>)

  ghost predicate WellShaped(proof: SumcheckProof, tp: Challenges, logN: nat) {
    && 1 <= logN <= CONST_PROOF_SIZE_LOG_N
    && |proof.univariates| == CONST_PROOF_SIZE_LOG_N
    && |proof.evaluations| == NUMBER_OF_ENTITIES + NUM_MASKING_POLYNOMIALS
    && |tp.gateChallenges| == CONST_PROOF_SIZE_LOG_N
    && |tp.u| == CONST_PROOF_SIZE_LOG_N
  }

  // The target before round k: the claimed total, then the last sent univariate at its challenge
  ghost function Target(total: Fr, univariates: seq<Univariate>, u: seq<Fr>, k: nat): Fr
    requires k <= |univariates| && k <= |u|
  {
    if k == 0 then total else Eval(Interpolant(univariates[k - 1]), u[k - 1])
  }

  ghost predicate RoundPasses(total: Fr, univariates: seq<Univariate>, u: seq<Fr>, k: nat)
    requires k < |univariates| && k < |u|
  {
    && Add(univariates[k][0], univariates[k][1]) == Target(total, univariates, u, k)
    && !IsNode(u[k])
  }

  ghost predicate AllRoundsPass(total: Fr, univariates: seq<Univariate>, u: seq<Fr>, n: nat)
    requires n <= |univariates| && n <= |u|
  {
    forall k :: 0 <= k < n ==> RoundPasses(total, univariates, u, k)
  }

  // The value the last target is compared with: the relation, switched off in the masked rows, and
  // the libra claim. The batched Honk relation is a parameter: a function of the 41 entity
  // evaluations and of the power polynomial.
  function FinalValue(proof: SumcheckProof, tp: Challenges, logN: nat, relation: (seq<Fr>, Fr) -> Fr): Fr
    requires logN <= |tp.u| && logN <= |tp.gateChallenges| && |proof.evaluations| > NUM_MASKING_POLYNOMIALS
  {
    var honk := relation(proof.evaluations[NUM_MASKING_POLYNOMIALS..], PowPartial(tp.u, tp.gateChallenges, logN));
    Add(Mul(honk, Mle(UnmaskedRows(logN), tp.u[..logN])), Mul(proof.libraEvaluation, tp.libraChallenge))
  }

  ghost predicate Accepts(proof: SumcheckProof, tp: Challenges, logN: nat, relation: (seq<Fr>, Fr) -> Fr)
    requires WellShaped(proof, tp, logN)
  {
    var total := Mul(tp.libraChallenge, proof.libraSum);
    && AllRoundsPass(total, proof.univariates, tp.u, logN)
    && FinalValue(proof, tp, logN, relation) == Target(total, proof.univariates, tp.u, logN)
  }

  // The gate challenges of the first n rounds are beta, beta^2, beta^4, ...
  ghost predicate GatesFrom(beta: Fr, tp: Challenges, n: nat) {
    n <= |tp.gateChallenges| && forall i :: 0 <= i < n ==> tp.gateChallenges[i] == Pow(beta, Pow2(i))
  }

  // verifySumcheck: None is a revert in some round
  method VerifySumcheck(proof: SumcheckProof, tp: Challenges, logN: nat, relation: (seq<Fr>, Fr) -> Fr)
    returns (verified: Option<bool>)
    requires IsPrime(MODULUS) && WellShaped(proof, tp, logN)
    ensures verified.Some? <==>
      AllRoundsPass(Mul(tp.libraChallenge, proof.libraSum), proof.univariates, tp.u, logN)
    ensures verified == Some(true) <==> Accepts(proof, tp, logN, relation)
    ensures forall beta :: GatesFrom(beta, tp, logN) ==>
      (verified == Some(true) <==>
        var total, u := Mul(tp.libraChallenge, proof.libraSum), tp.u[..logN];
        && AllRoundsPass(total, proof.univariates, tp.u, logN)
        && Target(total, proof.univariates, tp.u, logN)
          == Add(Mul(relation(proof.evaluations[1..], Mle(Powers(beta, Pow2(logN)), u)), Mle(UnmaskedRows(logN), u)),
                 Mul(proof.libraEvaluation, tp.libraChallenge)))
  {
    hide Add, Mul, Sub, Red, Eval, IsNode, Interpolant, Mle, UnmaskedRows, Powers, Pow, Pow2, Product;
    forall beta | GatesFrom(beta, tp, logN)
      ensures PowPartial(tp.u, tp.gateChallenges, logN) == Mle(Powers(beta, Pow2(logN)), tp.u[..logN])
    {
      PowerPolynomialOfTranscript(beta, tp.u, tp.gateChallenges, logN);
    }
    ghost var total := Mul(tp.libraChallenge, proof.libraSum);
    var roundTargetSum := Mul(tp.libraChallenge, proof.libraSum);
    var powPartialEvaluation := ONE;
    for round := 0 to logN
      invariant roundTargetSum == Target(total, proof.univariates, tp.u, round)
      invariant powPartialEvaluation == PowPartial(tp.u, tp.gateChallenges, round)
      invariant AllRoundsPass(total, proof.univariates, tp.u, round)
    {
      var roundUnivariate := proof.univariates[round];
      var totalSum := Add(roundUnivariate[0], roundUnivariate[1]);
      if totalSum != roundTargetSum {
        assert !RoundPasses(total, proof.univariates, tp.u, round);
        return None;
      }
      var roundChallenge := tp.u[round];
      var next := ComputeNextTargetSum(roundUnivariate, roundChallenge);
      if next.None? {
        assert !RoundPasses(total, proof.univariates, tp.u, round);
        return None;
      }
      roundTargetSum := next.value;
      powPartialEvaluation :=
        Mul(powPartialEvaluation, Add(ONE, Mul(roundChallenge, Sub(tp.gateChallenges[round], ONE))));
    }

    var relationsEvaluations := new Fr[NUMBER_OF_ENTITIES](_ => ZERO);
    for i := 0 to NUMBER_OF_ENTITIES
      invariant forall k :: 0 <= k < i ==> relationsEvaluations[k] == proof.evaluations[k + NUM_MASKING_POLYNOMIALS]
    {
      relationsEvaluations[i] := proof.evaluations[i + NUM_MASKING_POLYNOMIALS];
    }
    assert relationsEvaluations[..] == proof.evaluations[NUM_MASKING_POLYNOMIALS..];
    var grandHonkRelationSum := relation(relationsEvaluations[..], powPartialEvaluation);

    var evaluation := ONE;
    NoProduct();
    var i := 2;
    assert logN >= 2 ==> tp.u[2..i] == [];
    while i < logN
      invariant 2 <= i && (i <= logN || logN == 1)
      invariant evaluation == Product(if logN >= 2 then tp.u[2..i] else [])
    {
      assert tp.u[2..i + 1] == tp.u[2..i] + [tp.u[i]];
      ProductAppend(tp.u[2..i], tp.u[i]);
      evaluation := Mul(evaluation, tp.u[i]);
      i := i + 1;
    }
    assert logN >= 2 ==> tp.u[..logN][2..] == tp.u[2..i];
    DisablingFactor(tp.u[..logN], evaluation);

    grandHonkRelationSum :=
      Add(Mul(grandHonkRelationSum, Sub(ONE, evaluation)), Mul(proof.libraEvaluation, tp.libraChallenge));
    return Some(grandHonkRelationSum == roundTargetSum);
  }

  // The polynomial whose sum is claimed: a function of n variables, of degree at most eight in each

  ghost predicate Restricts(g: seq<Fr> -> Fr, xs: seq<Fr>, i: nat, c: Poly)
    requires i < |xs|
  {
    |c| == LENGTH && forall x :: g(xs[i := x]) == Eval(c, x)
  }

  ghost predicate LowDegreeIn(g: seq<Fr> -> Fr, xs: seq<Fr>, i: nat)
    requires i < |xs|
  {
    exists c: Poly :: Restricts(g, xs, i, c)
  }

  ghost predicate LowDegree(g: seq<Fr> -> Fr, n: nat) {
    forall xs: seq<Fr>, i: nat :: |xs| == n && i < n ==> LowDegreeIn(g, xs, i)
  }

  // The sum of g over all 0/1 values of the variables after the given ones
  ghost function HypercubeSum(g: seq<Fr> -> Fr, n: nat, xs: seq<Fr>): Fr
    decreases n - |xs|
  {
    if |xs| >= n then g(xs)
    else Add(HypercubeSum(g, n, xs + [ZERO]), HypercubeSum(g, n, xs + [ONE]))
  }

  ghost predicate PartialSumIs(g: seq<Fr> -> Fr, n: nat, before: seq<Fr>, after: seq<Fr>, c: Poly) {
    |c| == LENGTH && forall x :: HypercubeSum(g, n, before + [x] + after) == Eval(c, x)
  }

  // A partial sum is a polynomial of degree at most eight in each bound variable.
  lemma {:induction false} PartialSumLowDegree(g: seq<Fr> -> Fr, n: nat, before: seq<Fr>, after: seq<Fr>) returns (c: Poly)
    requires LowDegree(g, n) && |before| + 1 + |after| <= n
    ensures PartialSumIs(g, n, before, after, c)
    decreases n - |before| - |after|
  {
    hide Add, Mul, Sub, Red, Eval;
    if |before| + 1 + |after| == n {
      var xs := before + [ZERO] + after;
      assert LowDegreeIn(g, xs, |before|);
      c :| Restricts(g, xs, |before|, c);
      forall x ensures HypercubeSum(g, n, before + [x] + after) == Eval(c, x) {
        assert xs[|before| := x] == before + [x] + after;
      }
    } else {
      var c0 := PartialSumLowDegree(g, n, before, after + [ZERO]);
      var c1 := PartialSumLowDegree(g, n, before, after + [ONE]);
      c := PolyAdd(c0, c1);
      forall x ensures HypercubeSum(g, n, before + [x] + after) == Eval(c, x) {
        EvalAdd(c0, c1, x);
        assert before + [x] + after + [ZERO] == before + [x] + (after + [ZERO]);
        assert before + [x] + after + [ONE] == before + [x] + (after + [ONE]);
      }
    }
  }

  // What an honest prover sends after the challenges xs
  ghost function HonestUnivariate(g: seq<Fr> -> Fr, n: nat, xs: seq<Fr>): Univariate {
    seq(LENGTH, k requires 0 <= k < LENGTH => HypercubeSum(g, n, xs + [Red(k)]))
  }

  lemma HonestInterpolant(g: seq<Fr> -> Fr, n: nat, xs: seq<Fr>, x: Fr)
    requires IsPrime(MODULUS) && LowDegree(g, n) && |xs| < n
    ensures Eval(Interpolant(HonestUnivariate(g, n, xs)), x) == HypercubeSum(g, n, xs + [x])
  {
    hide Add, Mul, Sub, Red, Eval, Interpolant, HypercubeSum;
    var c := PartialSumLowDegree(g, n, xs, []);
    forall y ensures HypercubeSum(g, n, xs + [y]) == Eval(c, y) {
      assert xs + [y] + [] == xs + [y];
    }
    InterpolantUnique(HonestUnivariate(g, n, xs), c, x);
  }

  // Honest univariates pass every round outside the nodes and end with the target g(u).
  lemma {:induction false} Completeness(g: seq<Fr> -> Fr, n: nat, univariates: seq<Univariate>, u: seq<Fr>, k: nat)
    requires IsPrime(MODULUS) && LowDegree(g, n)
    requires k <= n <= |univariates| && n <= |u|
    requires forall j :: 0 <= j < n ==> univariates[j] == HonestUnivariate(g, n, u[..j]) && !IsNode(u[j])
    ensures Target(HypercubeSum(g, n, []), univariates, u, k) == HypercubeSum(g, n, u[..k])
    ensures AllRoundsPass(HypercubeSum(g, n, []), univariates, u, k)
    ensures k == n ==> Target(HypercubeSum(g, n, []), univariates, u, n) == g(u[..n])
  {
    hide Add, Mul, Sub, Eval, Interpolant, IsNode;
    var total := HypercubeSum(g, n, []);
    if k > 0 {
      var j := k - 1;
      Completeness(g, n, univariates, u, j);
      HonestInterpolant(g, n, u[..j], u[j]);
      assert u[..j] + [u[j]] == u[..k];
      assert univariates[j][0] == HypercubeSum(g, n, u[..j] + [ZERO]);
      assert univariates[j][1] == HypercubeSum(g, n, u[..j] + [ONE]);
      assert RoundPasses(total, univariates, u, j);
    }
  }

  // Round k got a wrong univariate that happens to meet the honest partial sum at the challenge.
  ghost predicate LuckyRound(g: seq<Fr> -> Fr, n: nat, univariates: seq<Univariate>, u: seq<Fr>, k: nat)
    requires k < |univariates| && k < |u|
  {
    && univariates[k] != HonestUnivariate(g, n, u[..k])
    && Eval(Interpolant(univariates[k]), u[k]) == HypercubeSum(g, n, u[..k] + [u[k]])
  }

  // A sent univariate other than the honest one meets it at no more than eight challenges.
  lemma FewLuckyChallenges(g: seq<Fr> -> Fr, n: nat, xs: seq<Fr>, sent: Univariate, lucky: set<Fr>)
    requires IsPrime(MODULUS) && LowDegree(g, n) && |xs| < n
    requires sent != HonestUnivariate(g, n, xs)
    requires forall x :: x in lucky ==> Eval(Interpolant(sent), x) == HypercubeSum(g, n, xs + [x])
    ensures |lucky| <= 8
  {
    hide Add, Mul, Sub, Red, Eval, Interpolant, HypercubeSum, HonestUnivariate;
    var honest := HonestUnivariate(g, n, xs);
    var k :| 0 <= k < LENGTH && sent[k] != honest[k];
    InterpolantHits(sent, k);
    InterpolantHits(honest, k);
    forall x | x in lucky ensures Eval(Interpolant(sent), x) == Eval(Interpolant(honest), x) {
      HonestInterpolant(g, n, xs, x);
    }
    AgreementBound(Interpolant(sent), Interpolant(honest), lucky, Red(k));
  }

  // From a wrong target, a passing round is lucky or leads to another wrong target.
  lemma {:induction false} WrongTargetPersists(g: seq<Fr> -> Fr, n: nat, total: Fr, univariates: seq<Univariate>, u: seq<Fr>, k: nat)
    requires IsPrime(MODULUS) && LowDegree(g, n)
    requires k <= n <= |univariates| && n <= |u|
    requires AllRoundsPass(total, univariates, u, n)
    requires total != HypercubeSum(g, n, [])
    requires forall j :: 0 <= j < k ==> !LuckyRound(g, n, univariates, u, j)
    ensures Target(total, univariates, u, k) != HypercubeSum(g, n, u[..k])
  {
    hide Add, Mul, Sub, Eval, Interpolant, IsNode;
    if k > 0 {
      var j := k - 1;
      WrongTargetPersists(g, n, total, univariates, u, j);
      assert RoundPasses(total, univariates, u, j);
      assert HonestUnivariate(g, n, u[..j])[0] == HypercubeSum(g, n, u[..j] + [ZERO]);
      assert HonestUnivariate(g, n, u[..j])[1] == HypercubeSum(g, n, u[..j] + [ONE]);
      assert univariates[j] != HonestUnivariate(g, n, u[..j]);
      assert u[..j] + [u[j]] == u[..k];
      assert !LuckyRound(g, n, univariates, u, j);
    }
  }

  // If the claimed total is false, every round passes and the last target is g(u), then some
  // round was lucky; and at most eight challenges could have made it so.
  lemma Soundness(g: seq<Fr> -> Fr, n: nat, total: Fr, univariates: seq<Univariate>, u: seq<Fr>) returns (k: nat)
    requires IsPrime(MODULUS) && LowDegree(g, n)
    requires n <= |univariates| && n <= |u|
    requires AllRoundsPass(total, univariates, u, n)
    requires total != HypercubeSum(g, n, [])
    requires Target(total, univariates, u, n) == g(u[..n])
    ensures k < n && LuckyRound(g, n, univariates, u, k)
    ensures forall lucky: set<Fr> ::
      (forall x :: x in lucky ==> Eval(Interpolant(univariates[k]), x) == HypercubeSum(g, n, u[..k] + [x])) ==> |lucky| <= 8
  {
    hide Add, Mul, Sub, Red, Eval, Interpolant, IsNode;
    if forall j :: 0 <= j < n ==> !LuckyRound(g, n, univariates, u, j) {
      WrongTargetPersists(g, n, total, univariates, u, n);
      assert false;
    }
    k :| 0 <= k < n && LuckyRound(g, n, univariates, u, k);
    forall lucky: set<Fr> |
      forall x :: x in lucky ==> Eval(Interpolant(univariates[k]), x) == HypercubeSum(g, n, u[..k] + [x])
      ensures |lucky| <= 8
    {
      FewLuckyChallenges(g, n, u[..k], univariates[k], lucky);
    }
  }

  // Both directions for the verifier itself, when the final value is g at the challenges
  lemma VerifierComplete(g: seq<Fr> -> Fr, proof: SumcheckProof, tp: Challenges, logN: nat, relation: (seq<Fr>, Fr) -> Fr)
    requires IsPrime(MODULUS) && LowDegree(g, logN) && WellShaped(proof, tp, logN)
    requires Mul(tp.libraChallenge, proof.libraSum) == HypercubeSum(g, logN, [])
    requires forall j :: 0 <= j < logN ==>
      proof.univariates[j] == HonestUnivariate(g, logN, tp.u[..j]) && !IsNode(tp.u[j])
    requires FinalValue(proof, tp, logN, relation) == g(tp.u[..logN])
    ensures Accepts(proof, tp, logN, relation)
  {
    hide HypercubeSum, HonestUnivariate, IsNode, FinalValue, Mul;
    Completeness(g, logN, proof.univariates, tp.u, logN);
  }

  lemma VerifierSound(g: seq<Fr> -> Fr, proof: SumcheckProof, tp: Challenges, logN: nat, relation: (seq<Fr>, Fr) -> Fr)
    returns (k: nat)
    requires IsPrime(MODULUS) && LowDegree(g, logN) && WellShaped(proof, tp, logN)
    requires Accepts(proof, tp, logN, relation)
    requires FinalValue(proof, tp, logN, relation) == g(tp.u[..logN])
    requires Mul(tp.libraChallenge, proof.libraSum) != HypercubeSum(g, logN, [])
    ensures k < logN && LuckyRound(g, logN, proof.univariates, tp.u, k)
    ensures forall lucky: set<Fr> ::
      (forall x :: x in lucky ==>
        Eval(Interpolant(proof.univariates[k]), x) == HypercubeSum(g, logN, tp.u[..k] + [x])) ==> |lucky| <= 8
  {
    hide HypercubeSum, IsNode, FinalValue, Mul;
    k := Soundness(g, logN, Mul(tp.libraChallenge, proof.libraSum), proof.univariates, tp.u);
  }
}
