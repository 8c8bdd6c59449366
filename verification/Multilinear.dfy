// Multilinear extensions of a table of 2^n values, and folding of the lowest variable.
module Multilinear {
  import opened PrimeField

  function Pow2(n: nat): (p: nat)
    ensures p > 0
  {
    if n == 0 then 1 else 2 * Pow2(n - 1)
  }

  // The product over the variables of eq(bit, u): u for a set bit of m, 1 - u for a clear one
  function Weight(u: seq<Fr>, m: nat): Fr {
    if u == [] then ONE
    else Mul(if m % 2 == 1 then u[0] else Sub(ONE, u[0]), Weight(u[1..], m / 2))
  }

  function MleUpTo(a: seq<Fr>, u: seq<Fr>, k: nat): Fr
    requires k <= |a|
  {
    if k == 0 then ZERO else Add(MleUpTo(a, u, k - 1), Mul(a[k - 1], Weight(u, k - 1)))
  }

  // The sum over all indices m of a[m] times the weight of m at u
  function Mle(a: seq<Fr>, u: seq<Fr>): Fr {
    MleUpTo(a, u, |a|)
  }

  function Evens(a: seq<Fr>): seq<Fr> {
    seq(|a| / 2, i requires 0 <= i < |a| / 2 => a[2 * i])
  }

  function Odds(a: seq<Fr>): seq<Fr> {
    seq(|a| / 2, i requires 0 <= i < |a| / 2 => a[2 * i + 1])
  }

  // Binding the lowest variable to u
  function Fold(a: seq<Fr>, u: Fr): (b: seq<Fr>)
    ensures |b| == |a| / 2
  {
    seq(|a| / 2, i requires 0 <= i < |a| / 2 => Add(Mul(Sub(ONE, u), a[2 * i]), Mul(u, a[2 * i + 1])))
  }

  lemma {:induction false} MleFoldUpTo(a: seq<Fr>, u: seq<Fr>, k: nat)
    requires u != [] && 2 * k <= |a|
    ensures MleUpTo(a, u, 2 * k) == MleUpTo(Fold(a, u[0]), u[1..], k)
  {
    hide Add, Mul, Sub, Red;
    if k > 0 {
      var i := k - 1;
      MleFoldUpTo(a, u, i);
      var w := Weight(u[1..], i);
      assert (2 * i) % 2 == 0 && (2 * i) / 2 == i;
      assert (2 * i + 1) % 2 == 1 && (2 * i + 1) / 2 == i;
      assert Weight(u, 2 * i) == Mul(Sub(ONE, u[0]), w);
      assert Weight(u, 2 * i + 1) == Mul(u[0], w);
      PairIdentity(MleUpTo(a, u, 2 * i), a[2 * i], a[2 * i + 1], u[0], w);
    }
  }

  lemma PairIdentity(s: Fr, a: Fr, b: Fr, u: Fr, w: Fr)
    ensures Add(Add(s, Mul(a, Mul(Sub(ONE, u), w))), Mul(b, Mul(u, w)))
         == Add(s, Mul(Add(Mul(Sub(ONE, u), a), Mul(u, b)), w))
  {
    hide Add, Mul, Sub, Red, Times;
    var i := Onto(s); var j := Onto(a); var k := Onto(b); var l := Onto(u); var m := Onto(w);
    Ring();
    assert i + j * ((1 - l) * m) + k * (l * m) == i + ((1 - l) * j + l * k) * m;
  }

  // Folding the table binds the first coordinate of the evaluation point.
  lemma MleFold(a: seq<Fr>, u: seq<Fr>)
    requires u != [] && |a| % 2 == 0
    ensures Mle(a, u) == Mle(Fold(a, u[0]), u[1..])
  {
    MleFoldUpTo(a, u, |a| / 2);
  }

  lemma {:induction false} MleScale(c: Fr, a: seq<Fr>, b: seq<Fr>, u: seq<Fr>, k: nat)
    requires k <= |a| == |b| && forall i :: 0 <= i < |a| ==> b[i] == Mul(c, a[i])
    ensures MleUpTo(b, u, k) == Mul(c, MleUpTo(a, u, k))
  {
    hide Add, Mul, Sub, Red, Weight;
    if k == 0 {
      RingBasics(c);
    } else {
      MleScale(c, a, b, u, k - 1);
      Distrib(c, MleUpTo(a, u, k - 1), Mul(a[k - 1], Weight(u, k - 1)));
      MulAssoc(c, a[k - 1], Weight(u, k - 1));
    }
  }
}
