// How many of all the challenge vectors let a false claim through sumcheck.
module SumcheckCounting {
  import opened PrimeField
  import opened Fermat
  import opened Polynomial
  import opened Barycentric
  import opened Sumcheck

  // A prover chooses each univariate knowing the challenges before it.
  type Prover = seq<Fr> -> Univariate

  ghost function Played(prover: Prover, u: seq<Fr>): seq<Univariate> {
    seq(|u|, k requires 0 <= k < |u| => prover(u[..k]))
  }

  // On the challenges u every round passes, and the last target is g(u).
  ghost predicate Convinces(g: seq<Fr> -> Fr, n: nat, total: Fr, prover: Prover, u: seq<Fr>) {
    && |u| == n && AllRoundsPass(total, Played(prover, u), u, n)
    && Target(total, Played(prover, u), u, n) == g(u)
  }

  // The number of vectors of n challenges
  function Vectors(n: nat): nat {
    if n == 0 then 1 else MODULUS * Vectors(n - 1)
  }

  function Bound(n: nat): nat {
    if n == 0 then 0 else 8 * n * Vectors(n - 1)
  }

  ghost predicate Extends(s: set<seq<Fr>>, xs: seq<Fr>, n: nat) {
    |xs| <= n && forall u :: u in s ==> |u| == n && u[..|xs|] == xs
  }

  // The vectors of s with x in place k
  ghost function Fibre(s: set<seq<Fr>>, k: nat, x: Fr): set<seq<Fr>> {
    set u | u in s && k < |u| && u[k] == x
  }

  // The size of a set whose fibres have at most a elements in special places and b in all others
  function Most(special: nat, a: nat, all: nat, b: nat): nat {
    special * a + all * b
  }

  lemma {:induction false} FibreBound(s: set<seq<Fr>>, k: nat, all: set<Fr>, special: set<Fr>, a: nat, b: nat)
    requires forall u :: u in s ==> k < |u| && u[k] in all
    requires forall x :: x in all ==> |Fibre(s, k, x)| <= if x in special then a else b
    requires special <= all
    ensures |s| <= Most(|special|, a, |all|, b)
    decreases all
  {
    if all == {} {
      assert s == {};
    } else {
      var x :| x in all;
      hide Most;
      WithoutFibre(s, k, x);
      hide Fibre;
      FibreBound(s - Fibre(s, k, x), k, all - {x}, special - {x}, a, b);
      OneMore(|Fibre(s, k, x)|, x in special, |special - {x}|, a, |all - {x}|, b);
      Without(all, x);
      Without(special, x);
    }
  }

  lemma WithoutFibre(s: set<seq<Fr>>, k: nat, x: Fr)
    ensures |s| == |Fibre(s, k, x)| + |s - Fibre(s, k, x)|
    ensures forall u :: u in s - Fibre(s, k, x) && k < |u| ==> u[k] != x
    ensures forall y :: y != x ==> Fibre(s - Fibre(s, k, x), k, y) == Fibre(s, k, y)
  {
    assert s == Fibre(s, k, x) + (s - Fibre(s, k, x));
  }

  lemma Without<T>(s: set<T>, x: T)
    ensures |s| == if x in s then |s - {x}| + 1 else |s - {x}|
  {
    if x !in s { assert s - {x} == s; }
  }

  lemma OneMore(fibre: nat, isSpecial: bool, special: nat, a: nat, all: nat, b: nat)
    requires fibre <= if isSpecial then a else b
    ensures fibre + Most(special, a, all, b) <= Most(if isSpecial then special + 1 else special, a, all + 1, b)
  {
    assert (special + 1) * a == special * a + a;
    assert (all + 1) * b == all * b + b;
  }

  lemma AllResidues(x: Fr)
    ensures x in Range(0, MODULUS) && |Range(0, MODULUS)| == MODULUS
  {
    RangeCount(0, MODULUS);
    assert x == Red(x.v as int);
  }

  lemma FibreExtends(s: set<seq<Fr>>, xs: seq<Fr>, n: nat, x: Fr)
    requires Extends(s, xs, n) && |xs| < n
    ensures Extends(Fibre(s, |xs|, x), xs + [x], n)
  {}

  lemma {:induction false} ExtensionBound(s: set<seq<Fr>>, xs: seq<Fr>, n: nat)
    requires Extends(s, xs, n)
    ensures |s| <= Vectors(n - |xs|)
    decreases n - |xs|
  {
    if |xs| == n {
      forall u | u in s ensures u == xs {}
      assert s <= {xs};
      Smaller(s, {xs});
    } else {
      var b := Vectors(n - |xs| - 1);
      forall x ensures |Fibre(s, |xs|, x)| <= b && x in Range(0, MODULUS) {
        AllResidues(x);
        FibreExtends(s, xs, n, x);
        ExtensionBound(Fibre(s, |xs|, x), xs + [x], n);
      }
      AllResidues(ZERO);
      assert Vectors(n - |xs|) == Most(0, 0, MODULUS, b);
      hide Range, Fibre, Vectors, Most;
      FibreBound(s, |xs|, Range(0, MODULUS), {}, 0, b);
    }
  }

  lemma Smaller<T>(s: set<T>, t: set<T>)
    requires s <= t
    ensures |s| <= |t|
  {
    assert t == s + (t - s);
  }

  // In the round after xs, a prover who has to defend a false target sends a false univariate...
  lemma FalseUnivariate(g: seq<Fr> -> Fr, n: nat, total: Fr, prover: Prover, u: seq<Fr>, k: nat)
    requires Convinces(g, n, total, prover, u) && k < n
    requires Target(total, Played(prover, u), u, k) != HypercubeSum(g, n, u[..k])
    ensures prover(u[..k]) != HonestUnivariate(g, n, u[..k])
  {
    hide Add, Red, Target;
    assert RoundPasses(total, Played(prover, u), u, k);
    assert HonestUnivariate(g, n, u[..k])[0] == HypercubeSum(g, n, u[..k] + [ZERO]);
    assert HonestUnivariate(g, n, u[..k])[1] == HypercubeSum(g, n, u[..k] + [ONE]);
  }

  // ...so with at most eight challenges the next target is right, and with all others it is false again.
  lemma {:induction false} SuffixBound(g: seq<Fr> -> Fr, n: nat, total: Fr, prover: Prover, s: set<seq<Fr>>, xs: seq<Fr>, t: Fr)
    requires IsPrime(MODULUS) && LowDegree(g, n) && Extends(s, xs, n)
    requires forall u :: u in s ==> Convinces(g, n, total, prover, u) && Target(total, Played(prover, u), u, |xs|) == t
    requires t != HypercubeSum(g, n, xs)
    ensures |s| <= Bound(n - |xs|)
    decreases n - |xs|
  {
    hide Red, Eval, Interpolant, HypercubeSum, HonestUnivariate, LowDegree, AllRoundsPass, Bound, Vectors, Range, Most,
      Lucky, Fibre, Target;
    if s != {} {
      var u :| u in s;
      if |xs| == n {
        FullSum(g, n, u);
        assert false;
      } else {
        var k, m, sent := |xs|, n - |xs| - 1, prover(xs);
        FalseUnivariate(g, n, total, prover, u, k);
        var lucky := Lucky(g, n, xs, sent);
        forall x ensures x in lucky <==> Eval(Interpolant(sent), x) == HypercubeSum(g, n, xs + [x]) {
          LuckyIff(g, n, xs, sent, x);
        }
        FewLuckyChallenges(g, n, xs, sent, lucky);
        forall x ensures |Fibre(s, k, x)| <= if x in lucky then Vectors(m) else Bound(m) {
          FibreExtends(s, xs, n, x);
          if x in lucky {
            ExtensionBound(Fibre(s, k, x), xs + [x], n);
          } else {
            NextTarget(total, prover, s, xs, n, x);
            SuffixBound(g, n, total, prover, Fibre(s, k, x), xs + [x], Eval(Interpolant(sent), x));
          }
        }
        forall x ensures x in Range(0, MODULUS) && |Range(0, MODULUS)| == MODULUS { AllResidues(x); }
        FibreBound(s, k, Range(0, MODULUS), lucky, Vectors(m), Bound(m));
        BoundStep(|lucky|, m);
      }
    }
  }

  ghost function Lucky(g: seq<Fr> -> Fr, n: nat, xs: seq<Fr>, sent: Univariate): set<Fr> {
    set x | x in Range(0, MODULUS) && Eval(Interpolant(sent), x) == HypercubeSum(g, n, xs + [x])
  }

  lemma LuckyIff(g: seq<Fr> -> Fr, n: nat, xs: seq<Fr>, sent: Univariate, x: Fr)
    ensures x in Lucky(g, n, xs, sent) <==> Eval(Interpolant(sent), x) == HypercubeSum(g, n, xs + [x])
  {
    hide Eval, Interpolant, HypercubeSum, Range;
    AllResidues(x);
  }

  lemma NextTarget(total: Fr, prover: Prover, s: set<seq<Fr>>, xs: seq<Fr>, n: nat, x: Fr)
    requires Extends(s, xs, n) && |xs| < n
    ensures Fibre(s, |xs|, x) <= s
    ensures forall u :: u in Fibre(s, |xs|, x) ==>
      |xs| < |u| && Target(total, Played(prover, u), u, |xs| + 1) == Eval(Interpolant(prover(xs)), x)
  {
    hide Eval, Interpolant;
  }

  lemma FullSum(g: seq<Fr> -> Fr, n: nat, u: seq<Fr>)
    requires |u| == n
    ensures HypercubeSum(g, n, u) == g(u) && u[..n] == u
  {}

  lemma BoundStep(lucky: nat, m: nat)
    requires lucky <= 8
    ensures Most(lucky, Vectors(m), MODULUS, Bound(m)) <= Bound(m + 1)
  {
    var v := Vectors(m);
    if m > 0 {
      var w := Vectors(m - 1);
      assert v == MODULUS * w && Bound(m) == 8 * m * w && Bound(m + 1) == 8 * (m + 1) * v;
      hide Vectors, Bound;
      Stretched(lucky, m, MODULUS, v, w);
    }
  }

  lemma Stretched(lucky: nat, m: nat, p: nat, v: nat, w: nat)
    requires lucky <= 8 && v == p * w
    ensures Most(lucky, v, p, 8 * m * w) <= 8 * (m + 1) * v
  {
    assert lucky * v <= 8 * v;
    assert p * (8 * m * w) == 8 * m * (p * w);
  }

  // Of the MODULUS^n challenge vectors, a prover with a false claim gets through with at most
  // 8 * n * MODULUS^(n-1), whatever the strategy.
  lemma FewConvincingVectors(g: seq<Fr> -> Fr, n: nat, total: Fr, prover: Prover, accepted: set<seq<Fr>>)
    requires IsPrime(MODULUS) && LowDegree(g, n)
    requires total != HypercubeSum(g, n, [])
    requires forall u :: u in accepted ==> Convinces(g, n, total, prover, u)
    ensures |accepted| <= Bound(n)
  {
    hide LowDegree, HypercubeSum, AllRoundsPass, Bound;
    SuffixBound(g, n, total, prover, accepted, [], total);
  }

  // The transcript with u as the first challenges of sumcheck
  function With(tp: Challenges, u: seq<Fr>): Challenges
    requires |u| <= |tp.u|
  {
    tp.(u := u + tp.u[|u|..])
  }

  // The proofs a prover's strategy leads to: the total stands before the challenges, and each
  // univariate depends on the challenges before it.
  ghost predicate Produces(prover: Prover, prove: seq<Fr> -> SumcheckProof, tp: Challenges, logN: nat, total: Fr) {
    forall u :: |u| == logN && logN <= |tp.u| ==>
      && WellShaped(prove(u), With(tp, u), logN)
      && Mul(tp.libraChallenge, prove(u).libraSum) == total
      && forall k :: 0 <= k < logN ==> prove(u).univariates[k] == prover(u[..k])
  }

  lemma AcceptedConvinces(g: seq<Fr> -> Fr, prover: Prover, prove: seq<Fr> -> SumcheckProof, tp: Challenges, logN: nat,
                          relation: (seq<Fr>, Fr) -> Fr, total: Fr, u: seq<Fr>)
    requires |u| == logN <= |tp.u| && Produces(prover, prove, tp, logN, total)
    requires Accepts(prove(u), With(tp, u), logN, relation)
    requires FinalValue(prove(u), With(tp, u), logN, relation) == g(u)
    ensures Convinces(g, logN, total, prover, u)
  {
    hide Eval, Interpolant, FinalValue, IsNode, Add, Mul, Red;
    var proof, v := prove(u), With(tp, u).u;
    forall k | 0 <= k < logN ensures RoundPasses(total, Played(prover, u), u, k) {
      assert RoundPasses(total, proof.univariates, v, k);
    }
  }

  // So verifySumcheck accepts the proofs of a false total for no more than that many challenge
  // vectors, when the final value is g at the challenges.
  lemma FewAcceptedVectors(g: seq<Fr> -> Fr, prover: Prover, prove: seq<Fr> -> SumcheckProof, tp: Challenges, logN: nat,
                           relation: (seq<Fr>, Fr) -> Fr, total: Fr, accepted: set<seq<Fr>>)
    requires IsPrime(MODULUS) && LowDegree(g, logN) && logN <= |tp.u| && Produces(prover, prove, tp, logN, total)
    requires total != HypercubeSum(g, logN, [])
    requires forall u :: u in accepted ==>
      && |u| == logN && Accepts(prove(u), With(tp, u), logN, relation)
      && FinalValue(prove(u), With(tp, u), logN, relation) == g(u)
    ensures |accepted| <= Bound(logN)
  {
    hide LowDegree, HypercubeSum, Bound, Accepts, FinalValue, Convinces, With;
    forall u | u in accepted ensures Convinces(g, logN, total, prover, u) {
      AcceptedConvinces(g, prover, prove, tp, logN, relation, total, u);
    }
    FewConvincingVectors(g, logN, total, prover, accepted);
  }
}
