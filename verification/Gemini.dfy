// Reconstruction of the Gemini fold evaluations A_l(r^(2^l)) from the sent A_l(-r^(2^l)).
module Gemini {
  import opened PrimeField
  import opened Fermat
  import opened Polynomial
  import opened Multilinear
  import opened PowerPolynomial
  import opened Wrappers

  // computeSquares: r, r^2, r^4, ...
  method ComputeSquares(r: Fr, logN: nat) returns (squares: array<Fr>)
    requires 1 <= logN
    ensures fresh(squares) && squares.Length == logN
    ensures forall i :: 0 <= i < logN ==> squares[i] == Pow(r, Pow2(i))
  {
    hide Mul, Red, Pow, Pow2;
    squares := new Fr[logN](_ => ZERO);
    squares[0] := r;
    PowOne(r);
    for i := 1 to logN
      invariant forall k :: 0 <= k < i ==> squares[k] == Pow(r, Pow2(k))
    {
      SquareOfPower(r, i - 1, squares[i - 1]);
      squares[i] := Mul(squares[i - 1], squares[i - 1]);
    }
  }

  // r^(2^l) * (1 - u_l) + u_l, the divisor of round l
  function Divisor(power: Fr, u: Fr): Fr {
    Add(Mul(power, Sub(ONE, u)), u)
  }

  // The dividend of round l
  function Dividend(power: Fr, u: Fr, next: Fr, negative: Fr): Fr {
    Sub(Mul(Mul(power, next), Red(2)), Mul(negative, Sub(Mul(power, Sub(ONE, u)), u)))
  }

  // What one pass of the backward loop leaves, as an equation without division
  ghost predicate SolvesRound(power: Fr, u: Fr, negative: Fr, next: Fr, value: Fr) {
    Mul(value, Divisor(power, u)) == Dividend(power, u, next, negative)
  }

  ghost function Next(evaluations: seq<Fr>, start: Fr, l: nat): Fr {
    if l + 1 < |evaluations| then evaluations[l + 1] else start
  }

  ghost predicate SolvesRounds(u: seq<Fr>, start: Fr, negatives: seq<Fr>, powers: seq<Fr>, evaluations: seq<Fr>, from: nat)
    requires |evaluations| <= |u| && |evaluations| <= |negatives| && |evaluations| <= |powers|
  {
    forall l :: from <= l < |evaluations| ==>
      SolvesRound(powers[l], u[l], negatives[l], Next(evaluations, start, l), evaluations[l])
  }

  // computeFoldPosEvaluations: reverts iff a divisor is zero, otherwise solves every round
  method ComputeFoldPosEvaluations(u: seq<Fr>, start: Fr, negatives: seq<Fr>, powers: seq<Fr>, logSize: nat)
    returns (result: Option<seq<Fr>>)
    requires IsPrime(MODULUS)
    requires logSize <= |u| && logSize <= |negatives| && logSize <= |powers|
    ensures result.None? <==> exists l :: 0 <= l < logSize && Divisor(powers[l], u[l]) == ZERO
    ensures result.Some? ==> |result.value| == logSize && SolvesRounds(u, start, negatives, powers, result.value, 0)
  {
    hide Add, Mul, Sub, Red, Invert, Divisor, Dividend;
    var accumulator := start;
    var evaluations := new Fr[logSize](_ => ZERO);
    var i := logSize;
    while i > 0
      invariant 0 <= i <= logSize
      invariant accumulator == if i < logSize then evaluations[i] else start
      invariant forall l :: i <= l < logSize ==> Divisor(powers[l], u[l]) != ZERO
      invariant SolvesRounds(u, start, negatives, powers, evaluations[..], i)
    {
      var l := i - 1;
      var divisor := Divisor(powers[l], u[l]);
      var dividend := Dividend(powers[l], u[l], accumulator, negatives[l]);
      InvertCorrect(divisor);
      var inverse := Invert(divisor);
      if inverse.None? {
        return None;
      }
      DivideBack(dividend, divisor, inverse.value);
      ghost var before := evaluations[..];
      evaluations[l] := Mul(dividend, inverse.value);
      SolvesOneMore(u, start, negatives, powers, before, evaluations[..], l);
      accumulator := evaluations[l];
      i := l;
    }
    return Some(evaluations[..]);
  }

  lemma SolvesOneMore(u: seq<Fr>, start: Fr, negatives: seq<Fr>, powers: seq<Fr>, before: seq<Fr>, after: seq<Fr>, l: nat)
    requires |before| == |after| <= |u| && |after| <= |negatives| && |after| <= |powers| && l < |after|
    requires SolvesRounds(u, start, negatives, powers, before, l + 1)
    requires forall k :: l < k < |after| ==> after[k] == before[k]
    requires SolvesRound(powers[l], u[l], negatives[l], Next(before, start, l), after[l])
    ensures SolvesRounds(u, start, negatives, powers, after, l)
  {
    hide SolvesRound;
  }

  lemma DivideBack(a: Fr, d: Fr, w: Fr)
    requires Mul(d, w) == ONE
    ensures Mul(Mul(a, w), d) == a
  {
    hide Mul, Red;
    MulAssoc(a, w, d);
    MulComm(w, d);
    RingBasics(a);
  }

  // The prover's polynomials: A_0 has 2^n coefficients and each next one binds a variable.
  ghost function FoldTo(a: seq<Fr>, u: seq<Fr>, l: nat): seq<Fr>
    requires l <= |u|
  {
    if l == 0 then a else Fold(FoldTo(a, u, l - 1), u[l - 1])
  }

  lemma {:induction false} FoldToFront(a: seq<Fr>, u: seq<Fr>, l: nat)
    requires 0 < l <= |u|
    ensures FoldTo(a, u, l) == FoldTo(Fold(a, u[0]), u[1..], l - 1)
  {
    if l > 1 { FoldToFront(a, u, l - 1); }
  }

  lemma {:induction false} FoldToLength(a: seq<Fr>, u: seq<Fr>, l: nat)
    requires |a| == Pow2(|u|) && l <= |u|
    ensures |FoldTo(a, u, l)| == Pow2(|u| - l)
  {
    hide Fold;
    if l > 0 {
      FoldToLength(a, u, l - 1);
      assert Pow2(|u| - l + 1) == 2 * Pow2(|u| - l);
    }
  }

  lemma FoldToIsEven(a: seq<Fr>, u: seq<Fr>, l: nat)
    requires |a| == Pow2(|u|) && l < |u|
    ensures |FoldTo(a, u, l)| % 2 == 0
  {
    hide Fold;
    FoldToLength(a, u, l);
  }

  // Folding every variable leaves the multilinear extension at u.
  lemma {:induction false} FullFoldIsMle(a: seq<Fr>, u: seq<Fr>)
    requires |a| == Pow2(|u|)
    ensures FoldTo(a, u, |u|) == [Mle(a, u)]
    decreases |u|
  {
    hide Add, Mul, Sub, Red;
    if u == [] {
      assert Mle(a, u) == Add(MleUpTo(a, u, 0), Mul(a[0], Weight(u, 0)));
      RingBasics(a[0]);
    } else {
      FoldToFront(a, u, |u|);
      MleFold(a, u);
      FullFoldIsMle(Fold(a, u[0]), u[1..]);
    }
  }

  // a(x) == even(x^2) + x * odd(x^2)
  lemma {:induction false} EvenOdd(a: Poly, x: Fr)
    requires |a| % 2 == 0
    ensures Eval(a, x) == Add(Eval(Evens(a), Mul(x, x)), Mul(x, Eval(Odds(a), Mul(x, x))))
    decreases |a|
  {
    hide Add, Mul, Red;
    if a == [] {
      RingBasics(x);
      RingBasics(ZERO);
    } else {
      var t := a[2..];
      EvenOdd(t, x);
      assert a[1..][1..] == t && a[1..][0] == a[1];
      assert Evens(a)[1..] == Evens(t) && Odds(a)[1..] == Odds(t);
      EvenOddIdentity(a[0], a[1], x, Eval(Evens(t), Mul(x, x)), Eval(Odds(t), Mul(x, x)));
    }
  }

  lemma EvenOddIdentity(a: Fr, b: Fr, x: Fr, e: Fr, o: Fr)
    ensures Add(a, Mul(x, Add(b, Mul(x, Add(e, Mul(x, o))))))
         == Add(Add(a, Mul(Mul(x, x), e)), Mul(x, Add(b, Mul(Mul(x, x), o))))
  {
    hide Add, Mul, Red, Times;
    var i := Onto(a); var j := Onto(b); var k := Onto(x); var l := Onto(e); var m := Onto(o);
    Ring();
    assert i + k * (j + k * (l + k * m)) == (i + (k * k) * l) + k * (j + (k * k) * m);
  }

  lemma FoldEval(a: Poly, u: Fr, y: Fr)
    ensures Eval(Fold(a, u), y) == Add(Mul(Sub(ONE, u), Eval(Evens(a), y)), Mul(u, Eval(Odds(a), y)))
  {
    hide Add, Mul, Sub, Red, Eval;
    var e, o := PolyScale(Sub(ONE, u), Evens(a)), PolyScale(u, Odds(a));
    assert Fold(a, u) == PolyAdd(e, o);
    EvalAdd(e, o, y);
    EvalScale(Sub(ONE, u), Evens(a), y);
    EvalScale(u, Odds(a), y);
  }

  lemma NegationSquares(x: Fr)
    ensures Mul(Sub(ZERO, x), Sub(ZERO, x)) == Mul(x, x)
  {
    hide Mul, Sub, Red, Times;
    var i := Onto(x);
    Ring();
    assert (0 - i) * (0 - i) == i * i;
  }

  lemma NegatedOdd(x: Fr, e: Fr, o: Fr)
    ensures Add(e, Mul(Sub(ZERO, x), o)) == Sub(e, Mul(x, o))
  {
    hide Add, Mul, Sub, Red, Times;
    var i := Onto(x); var j := Onto(e); var k := Onto(o);
    Ring();
    assert j + (0 - i) * k == j - i * k;
  }

  lemma StepIdentity(x: Fr, u: Fr, e: Fr, o: Fr)
    ensures Dividend(x, u, Add(Mul(Sub(ONE, u), e), Mul(u, o)), Sub(e, Mul(x, o)))
         == Mul(Add(e, Mul(x, o)), Divisor(x, u))
  {
    hide Mul, Add, Red, Sub;
    DoubledNext(x, u, e, o);
    DoubledMinus(Mul(x, Sub(ONE, u)), u, e, Mul(x, o));
  }

  lemma DoubledNext(x: Fr, u: Fr, e: Fr, o: Fr)
    ensures Mul(Mul(x, Add(Mul(Sub(ONE, u), e), Mul(u, o))), Red(2))
         == Mul(Red(2), Add(Mul(Mul(x, Sub(ONE, u)), e), Mul(u, Mul(x, o))))
  {
    hide Mul, Add, Red, Sub, Times;
    var i := Onto(x); var j := Onto(u); var k := Onto(e); var l := Onto(o);
    Ring();
    assert i * ((1 - j) * k + j * l) * 2 == 2 * (i * (1 - j) * k + j * (i * l));
  }

  lemma DoubledMinus(p: Fr, u: Fr, e: Fr, y: Fr)
    ensures Sub(Mul(Red(2), Add(Mul(p, e), Mul(u, y))), Mul(Sub(e, y), Sub(p, u))) == Mul(Add(e, y), Add(p, u))
  {
    hide Mul, Add, Red, Sub, Times;
    var i := Onto(p); var j := Onto(u); var k := Onto(e); var l := Onto(y);
    Ring();
    assert 2 * (i * k + j * l) - (k - l) * (i - j) == (k + l) * (i + j);
  }

  // One round on honest values: the dividend is A_l(x) times the divisor.
  lemma HonestRound(a: Poly, u: Fr, x: Fr)
    requires |a| % 2 == 0
    ensures Dividend(x, u, Eval(Fold(a, u), Mul(x, x)), Eval(a, Sub(ZERO, x))) == Mul(Eval(a, x), Divisor(x, u))
  {
    hide Add, Mul, Sub, Red, Eval, Dividend, Divisor;
    var e, o := Eval(Evens(a), Mul(x, x)), Eval(Odds(a), Mul(x, x));
    EvenOdd(a, x);
    EvenOdd(a, Sub(ZERO, x));
    NegationSquares(x);
    NegatedOdd(x, e, o);
    FoldEval(a, u, Mul(x, x));
    StepIdentity(x, u, e, o);
  }

  ghost predicate HonestNegatives(a: seq<Fr>, u: seq<Fr>, r: Fr, negatives: seq<Fr>) {
    |negatives| == |u| && forall l :: 0 <= l < |u| ==> negatives[l] == Eval(FoldTo(a, u, l), Sub(ZERO, Pow(r, Pow2(l))))
  }

  // Given the true values at -r^(2^l) and the multilinear evaluation of A_0 at u, any solution
  // of the rounds is the list of values at r^(2^l).
  lemma {:induction false} FoldReconstruction(a: seq<Fr>, u: seq<Fr>, r: Fr, negatives: seq<Fr>, powers: seq<Fr>,
                                              evaluations: seq<Fr>, l: nat)
    requires IsPrime(MODULUS)
    requires |a| == Pow2(|u|) && |powers| == |u| == |evaluations| && l < |u|
    requires HonestNegatives(a, u, r, negatives)
    requires forall k :: 0 <= k < |u| ==> powers[k] == Pow(r, Pow2(k))
    requires forall k :: 0 <= k < |u| ==> Divisor(powers[k], u[k]) != ZERO
    requires SolvesRounds(u, Mle(a, u), negatives, powers, evaluations, 0)
    ensures evaluations[l] == Eval(FoldTo(a, u, l), Pow(r, Pow2(l)))
    decreases |u| - l
  {
    hide Add, Mul, Sub, Red, Eval, Divisor, Dividend, Pow, Pow2, Fold, Mle;
    var x := Pow(r, Pow2(l));
    FoldToIsEven(a, u, l);
    SquareOfPower(r, l, x);
    if l + 1 < |u| {
      FoldReconstruction(a, u, r, negatives, powers, evaluations, l + 1);
    } else {
      FullFoldIsMle(a, u);
      EvalConstant(Mle(a, u), Mul(x, x));
    }
    HonestRound(FoldTo(a, u, l), u[l], x);
    var d := Divisor(x, u[l]);
    assert SolvesRound(x, u[l], negatives[l], Next(evaluations, Mle(a, u), l), evaluations[l]);
    MulComm(evaluations[l], d);
    MulComm(Eval(FoldTo(a, u, l), x), d);
    Cancel(d, evaluations[l], Eval(FoldTo(a, u, l), x));
  }

  // The two calls of verifyShplemini together, on honest sent values
  method ReconstructFolds(ghost a: seq<Fr>, u: seq<Fr>, r: Fr, start: Fr, negatives: seq<Fr>) returns (result: Option<seq<Fr>>)
    requires IsPrime(MODULUS) && u != [] && |a| == Pow2(|u|)
    requires start == Mle(a, u) && HonestNegatives(a, u, r, negatives)
    ensures result.None? <==> exists l :: 0 <= l < |u| && Divisor(Pow(r, Pow2(l)), u[l]) == ZERO
    ensures result.Some? ==> |result.value| == |u|
    ensures result.Some? ==> forall l :: 0 <= l < |u| ==> result.value[l] == Eval(FoldTo(a, u, l), Pow(r, Pow2(l)))
  {
    hide Add, Mul, Sub, Red, Eval, Divisor, Pow;
    var squares := ComputeSquares(r, |u|);
    var powers := squares[..];
    result := ComputeFoldPosEvaluations(u, start, negatives, powers, |u|);
    if result.Some? {
      forall l | 0 <= l < |u| ensures result.value[l] == Eval(FoldTo(a, u, l), Pow(r, Pow2(l))) {
        FoldReconstruction(a, u, r, negatives, powers, result.value, l);
      }
    }
  }
}
