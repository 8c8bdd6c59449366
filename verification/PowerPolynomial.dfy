// Gate challenges, the running power polynomial of sumcheck, and the batching powers of alpha.
module PowerPolynomial {
  import opened Honk
  import opened PrimeField
  import opened Polynomial
  import opened Multilinear

  function Powers(x: Fr, n: nat): seq<Fr> {
    seq(n, m requires 0 <= m < n => Pow(x, m))
  }

  // generateGateChallenges after the hash: beta, beta^2, beta^4, ..., zero-padded
  method GenerateGateChallenges(beta: Fr, logN: nat) returns (gateChallenges: array<Fr>)
    requires 1 <= logN <= CONST_PROOF_SIZE_LOG_N
    ensures fresh(gateChallenges) && gateChallenges.Length == CONST_PROOF_SIZE_LOG_N
    ensures forall i :: 0 <= i < logN ==> gateChallenges[i] == Pow(beta, Pow2(i))
    ensures forall i :: logN <= i < CONST_PROOF_SIZE_LOG_N ==> gateChallenges[i] == ZERO
  {
    hide Mul, Red, Pow, Pow2;
    gateChallenges := new Fr[CONST_PROOF_SIZE_LOG_N](_ => ZERO);
    gateChallenges[0] := beta;
    PowOne(beta);
    for i := 1 to logN
      invariant forall k :: 0 <= k < i ==> gateChallenges[k] == Pow(beta, Pow2(k))
      invariant forall k :: i <= k < CONST_PROOF_SIZE_LOG_N ==> gateChallenges[k] == ZERO
    {
      SquareOfPower(beta, i - 1, gateChallenges[i - 1]);
      gateChallenges[i] := Mul(gateChallenges[i - 1], gateChallenges[i - 1]);
    }
  }

  lemma PowOne(x: Fr)
    ensures Pow(x, 1) == x && Pow2(0) == 1
  {
    RingBasics(x);
  }

  lemma SquareOfPower(x: Fr, i: nat, power: Fr)
    requires power == Pow(x, Pow2(i))
    ensures Mul(power, power) == Pow(x, Pow2(i + 1))
  {
    PowAdd(x, Pow2(i), Pow2(i), power, power);
  }

  lemma {:induction false} PowOfSquare(x: Fr, square: Fr, m: nat, n: nat)
    requires square == Mul(x, x) && n == 2 * m
    ensures Pow(square, m) == Pow(x, n)
  {
    hide Mul, Red;
    if m > 0 {
      PowOfSquare(x, square, m - 1, n - 2);
      MulAssoc(x, x, Pow(x, n - 2));
    }
  }

  // The product of 1 + u_i * (beta_i - 1) over the first n rounds
  function PowPartial(u: seq<Fr>, gates: seq<Fr>, n: nat): Fr
    requires n <= |u| && n <= |gates|
  {
    if n == 0 then ONE
    else Mul(PowPartial(u, gates, n - 1), Add(ONE, Mul(u[n - 1], Sub(gates[n - 1], ONE))))
  }

  lemma {:induction false} PowPartialFront(u: seq<Fr>, gates: seq<Fr>, n: nat)
    requires 0 < n <= |u| && n <= |gates|
    ensures PowPartial(u, gates, n)
         == Mul(Add(ONE, Mul(u[0], Sub(gates[0], ONE))), PowPartial(u[1..], gates[1..], n - 1))
  {
    hide Add, Mul, Sub, Red;
    var f := Add(ONE, Mul(u[0], Sub(gates[0], ONE)));
    if n == 1 {
      RingBasics(f);
    } else {
      PowPartialFront(u, gates, n - 1);
      MulAssoc(f, PowPartial(u[1..], gates[1..], n - 2), Add(ONE, Mul(u[n - 1], Sub(gates[n - 1], ONE))));
    }
  }

  // The running product of sumcheck is the sum over the hypercube of beta^index(b) times the
  // product of eq(b_i, u_i).
  lemma {:induction false} PowerPolynomialIsSum(beta: Fr, u: seq<Fr>, gates: seq<Fr>)
    requires |u| == |gates|
    requires forall i :: 0 <= i < |u| ==> gates[i] == Pow(beta, Pow2(i))
    ensures PowPartial(u, gates, |u|) == Mle(Powers(beta, Pow2(|u|)), u)
    decreases |u|
  {
    hide Add, Mul, Sub, Red;
    var all := Powers(beta, Pow2(|u|));
    if u == [] {
      assert MleUpTo(all, u, 1) == Add(MleUpTo(all, u, 0), Mul(all[0], Weight(u, 0)));
      RingBasics(ONE);
    } else {
      var f := Add(ONE, Mul(u[0], Sub(gates[0], ONE)));
      var square := Mul(beta, beta);
      forall i | 0 <= i < |u| - 1 ensures gates[1..][i] == Pow(square, Pow2(i)) {
        PowOfSquare(beta, square, Pow2(i), Pow2(i + 1));
      }
      PowerPolynomialIsSum(square, u[1..], gates[1..]);
      PowPartialFront(u, gates, |u|);
      PowOne(beta);
      FoldPowers(beta, u[0], Pow2(|u| - 1));
      MleFold(all, u);
      MleScale(f, Powers(square, Pow2(|u| - 1)), Fold(all, u[0]), u[1..], Pow2(|u| - 1));
    }
  }

  lemma {:induction false} PowPartialPrefix(u: seq<Fr>, gates: seq<Fr>, n: nat, m: nat)
    requires n <= m <= |u| && m <= |gates|
    ensures PowPartial(u[..m], gates[..m], n) == PowPartial(u, gates, n)
  {
    hide Add, Mul, Sub, Red;
    if n > 0 { PowPartialPrefix(u, gates, n - 1, m); }
  }

  // The same for what sumcheck passes on: all the challenges of the transcript, of which the gate
  // challenges after logN are not powers.
  lemma PowerPolynomialOfTranscript(beta: Fr, u: seq<Fr>, gates: seq<Fr>, logN: nat)
    requires logN <= |u| && logN <= |gates|
    requires forall i :: 0 <= i < logN ==> gates[i] == Pow(beta, Pow2(i))
    ensures PowPartial(u, gates, logN) == Mle(Powers(beta, Pow2(logN)), u[..logN])
  {
    hide PowPartial, Mle, Powers, Pow, Pow2;
    PowPartialPrefix(u, gates, logN, logN);
    PowerPolynomialIsSum(beta, u[..logN], gates[..logN]);
  }

  lemma FoldPowers(beta: Fr, u: Fr, k: nat)
    ensures |Powers(beta, 2 * k)| == 2 * k && |Fold(Powers(beta, 2 * k), u)| == k
    ensures forall i :: 0 <= i < k ==>
      Fold(Powers(beta, 2 * k), u)[i] == Mul(Add(ONE, Mul(u, Sub(beta, ONE))), Powers(Mul(beta, beta), k)[i])
  {
    hide Add, Mul, Sub, Red;
    forall i | 0 <= i < k
      ensures Fold(Powers(beta, 2 * k), u)[i] == Mul(Add(ONE, Mul(u, Sub(beta, ONE))), Powers(Mul(beta, beta), k)[i])
    {
      PowOfSquare(beta, Mul(beta, beta), i, 2 * i);
      FoldPowerIdentity(beta, u, Pow(beta, 2 * i));
    }
  }

  lemma FoldPowerIdentity(beta: Fr, u: Fr, p: Fr)
    ensures Add(Mul(Sub(ONE, u), p), Mul(u, Mul(beta, p))) == Mul(Add(ONE, Mul(u, Sub(beta, ONE))), p)
  {
    hide Add, Mul, Sub, Red, Times;
    var i := Onto(beta); var j := Onto(u); var k := Onto(p);
    Ring();
    assert (1 - j) * k + j * (i * k) == (1 + j * (i - 1)) * k;
  }

  // generateAlphaChallenges after the hash: alpha, alpha^2, ..., alpha^27
  method GenerateAlphaChallenges(alpha: Fr) returns (alphas: array<Fr>)
    ensures fresh(alphas) && alphas.Length == NUMBER_OF_ALPHAS
    ensures forall i :: 0 <= i < NUMBER_OF_ALPHAS ==> alphas[i] == Pow(alpha, i + 1)
  {
    hide Mul, Red;
    alphas := new Fr[NUMBER_OF_ALPHAS](_ => ZERO);
    alphas[0] := alpha;
    PowOne(alpha);
    for i := 1 to NUMBER_OF_ALPHAS
      invariant forall k :: 0 <= k < i ==> alphas[k] == Pow(alpha, k + 1)
    {
      MulComm(alphas[i - 1], alpha);
      alphas[i] := Mul(alphas[i - 1], alpha);
    }
  }

  lemma {:induction false} EvalAppend(c: Poly, d: Fr, x: Fr)
    ensures Eval(c + [d], x) == Add(Eval(c, x), Mul(d, Pow(x, |c|)))
  {
    hide Add, Mul, Red;
    if c == [] {
      assert ([] + [d])[1..] == [];
      RingBasics(x);
      RingBasics(d);
    } else {
      EvalAppend(c[1..], d, x);
      assert (c + [d])[1..] == c[1..] + [d];
      AppendIdentity(c[0], x, Eval(c[1..], x), d, Pow(x, |c| - 1));
    }
  }

  lemma AppendIdentity(a: Fr, x: Fr, p: Fr, d: Fr, w: Fr)
    ensures Add(a, Mul(x, Add(p, Mul(d, w)))) == Add(Add(a, Mul(x, p)), Mul(d, Mul(x, w)))
  {
    hide Add, Mul, Red, Times;
    var i := Onto(a); var j := Onto(x); var k := Onto(p); var l := Onto(d); var m := Onto(w);
    Ring();
    assert i + j * (k + l * m) == (i + j * k) + l * (j * m);
  }

  // scaleAndBatchSubrelations with the alphas above is the polynomial with the subrelation
  // values as coefficients, at alpha: the sum of alpha^i * evaluations[i].
  method ScaleAndBatchSubrelations(evaluations: seq<Fr>, alphas: array<Fr>, ghost alpha: Fr) returns (accumulator: Fr)
    requires |evaluations| == NUMBER_OF_SUBRELATIONS && alphas.Length == NUMBER_OF_ALPHAS
    requires forall i :: 0 <= i < NUMBER_OF_ALPHAS ==> alphas[i] == Pow(alpha, i + 1)
    ensures accumulator == Eval(evaluations, alpha)
  {
    hide Add, Mul, Red;
    accumulator := evaluations[0];
    assert evaluations[..1] == [evaluations[0]] && [evaluations[0]][1..] == [];
    RingBasics(alpha);
    RingBasics(evaluations[0]);
    for i := 1 to NUMBER_OF_SUBRELATIONS
      invariant accumulator == Eval(evaluations[..i], alpha)
    {
      assert evaluations[..i + 1] == evaluations[..i] + [evaluations[i]];
      EvalAppend(evaluations[..i], evaluations[i], alpha);
      accumulator := Add(accumulator, Mul(evaluations[i], alphas[i - 1]));
    }
    assert evaluations[..NUMBER_OF_SUBRELATIONS] == evaluations;
  }
}
