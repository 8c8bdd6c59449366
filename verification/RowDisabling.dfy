// The factor that switches the relation off in the last four rows, where the masking values are.
module RowDisabling {
  import opened PrimeField
  import opened Multilinear

  // The table of 2^n rows: zero in the last four, one elsewhere
  function UnmaskedRows(n: nat): seq<Fr> {
    seq(Pow2(n), i requires 0 <= i < Pow2(n) => if i + 4 >= Pow2(n) then ZERO else ONE)
  }

  // 2^n rows: zero in the last two or x in the last one, and one elsewhere

  function OnesThenTwoZeros(n: nat): seq<Fr> {
    seq(Pow2(n), i requires 0 <= i < Pow2(n) => if i + 2 >= Pow2(n) then ZERO else ONE)
  }

  function OnesThen(n: nat, x: Fr): seq<Fr> {
    seq(Pow2(n), i requires 0 <= i < Pow2(n) => if i + 1 >= Pow2(n) then x else ONE)
  }

  // The product of all the coordinates
  function Product(u: seq<Fr>): Fr {
    if u == [] then ONE else Mul(u[0], Product(u[1..]))
  }

  lemma {:induction false} ProductAppend(u: seq<Fr>, x: Fr)
    ensures Product(u + [x]) == Mul(Product(u), x)
  {
    hide Mul, Red;
    if u == [] {
      assert ([] + [x])[1..] == [];
      RingBasics(x);
    } else {
      ProductAppend(u[1..], x);
      assert (u + [x])[1..] == u[1..] + [x];
      MulAssoc(u[0], Product(u[1..]), x);
    }
  }

  lemma Pair(a: Fr, u: Fr)
    ensures Add(Mul(Sub(ONE, u), a), Mul(u, a)) == a
  {
    hide Add, Mul, Sub, Red, Times;
    var i := Onto(a); var j := Onto(u);
    Ring();
    assert (1 - j) * i + j * i == i;
  }

  lemma FoldUnmasked(n: nat, u: Fr)
    requires n >= 2
    ensures Fold(UnmaskedRows(n), u) == OnesThenTwoZeros(n - 1)
  {
    hide Add, Mul, Sub, Red;
    Pair(ZERO, u);
    Pair(ONE, u);
    var half := Pow2(n - 1);
    assert Pow2(n) == 2 * half && half == 2 * Pow2(n - 2);
    hide Pow2;
  }

  lemma FoldTwoZeros(n: nat, u: Fr)
    requires n >= 1
    ensures Fold(OnesThenTwoZeros(n), u) == OnesThen(n - 1, ZERO)
  {
    hide Add, Mul, Sub, Red;
    Pair(ZERO, u);
    Pair(ONE, u);
    assert Pow2(n) == 2 * Pow2(n - 1);
    hide Pow2;
  }

  lemma FoldOnesThen(n: nat, x: Fr, u: Fr)
    requires n >= 1
    ensures Fold(OnesThen(n, x), u) == OnesThen(n - 1, Add(Sub(ONE, u), Mul(u, x)))
  {
    hide Add, Mul, Sub, Red;
    Pair(ONE, u);
    RingBasics(Sub(ONE, u));
    MulComm(Sub(ONE, u), ONE);
    assert Pow2(n) == 2 * Pow2(n - 1);
  }

  lemma FoldRows(a: seq<Fr>, u: seq<Fr>, half: nat)
    requires u != [] && |a| == 2 * half
    ensures Mle(a, u) == Mle(Fold(a, u[0]), u[1..])
  {
    Even(half);
    MleFold(a, u);
  }

  lemma Even(half: nat)
    ensures (2 * half) % 2 == 0
  {}

  lemma {:induction false} OnesThenIs(x: Fr, u: seq<Fr>)
    ensures Mle(OnesThen(|u|, x), u) == Sub(ONE, Mul(Sub(ONE, x), Product(u)))
    decreases |u|
  {
    hide Add, Mul, Sub, Red;
    if u == [] {
      var a := OnesThen(0, x);
      assert a == [x] && MleUpTo(a, u, 1) == Add(MleUpTo(a, u, 0), Mul(x, Weight(u, 0)));
      SinglePoint(x);
    } else {
      var y := Add(Sub(ONE, u[0]), Mul(u[0], x));
      FoldRows(OnesThen(|u|, x), u, Pow2(|u| - 1));
      FoldOnesThen(|u|, x, u[0]);
      OnesThenIs(y, u[1..]);
      Shrink(x, u[0], Product(u[1..]));
    }
  }

  lemma SinglePoint(x: Fr)
    ensures Add(ZERO, Mul(x, ONE)) == Sub(ONE, Mul(Sub(ONE, x), ONE))
  {
    hide Add, Mul, Sub, Red, Times;
    var i := Onto(x);
    Ring();
    assert 0 + i * 1 == 1 - (1 - i) * 1;
  }

  lemma Shrink(x: Fr, u: Fr, p: Fr)
    ensures Sub(ONE, Mul(Sub(ONE, Add(Sub(ONE, u), Mul(u, x))), p)) == Sub(ONE, Mul(Sub(ONE, x), Mul(u, p)))
  {
    hide Add, Mul, Sub, Red, Times;
    var i := Onto(x); var j := Onto(u); var k := Onto(p);
    Ring();
    assert 1 - (1 - ((1 - j) + j * i)) * k == 1 - (1 - i) * (j * k);
  }

  lemma BindTwo(u: seq<Fr>)
    requires |u| >= 2
    ensures Mle(UnmaskedRows(|u|), u) == Mle(OnesThen(|u| - 2, ZERO), u[2..])
  {
    hide Add, Mul, Sub, Red, Mle, Fold;
    var n := |u|;
    FoldRows(UnmaskedRows(n), u, Pow2(n - 1));
    FoldUnmasked(n, u[0]);
    FoldRows(OnesThenTwoZeros(n - 1), u[1..], Pow2(n - 2));
    FoldTwoZeros(n - 1, u[1]);
    assert u[1..][1..] == u[2..];
  }

  // One minus the product of the coordinates from the third on is the multilinear extension of the
  // table that is zero in its last four rows.
  lemma UnmaskedIsMle(u: seq<Fr>)
    requires |u| >= 2
    ensures Mle(UnmaskedRows(|u|), u) == Sub(ONE, Product(u[2..]))
  {
    hide *;
    BindTwo(u);
    OnesThenIs(ZERO, u[2..]);
    RingBasics(Product(u[2..]));
    RingBasics(ONE);
  }

  // With fewer than four rows all of them are masked.
  lemma {:induction false} AllMasked(u: seq<Fr>, k: nat)
    requires |u| <= 2 && k <= Pow2(|u|)
    ensures MleUpTo(UnmaskedRows(|u|), u, k) == ZERO
  {
    hide Add, Mul, Sub, Red, Weight;
    if k > 0 {
      AllMasked(u, k - 1);
      assert Pow2(0) == 1 && Pow2(1) == 2 && Pow2(2) == 4;
      RingBasics(Weight(u, k - 1));
      RingBasics(ZERO);
    }
  }

  // What sumcheck multiplies the relation with: one minus the product of u[i] over 2 <= i < n
  lemma DisablingFactor(u: seq<Fr>, product: Fr)
    requires u != [] && product == Product(if |u| >= 2 then u[2..] else [])
    ensures Sub(ONE, product) == Mle(UnmaskedRows(|u|), u)
  {
    hide Add, Mul, Sub, Red, Product;
    if |u| >= 2 {
      UnmaskedIsMle(u);
    } else {
      AllMasked(u, Pow2(|u|));
      RingBasics(ONE);
      NoProduct();
    }
  }

  lemma NoProduct()
    ensures Product([]) == ONE
  {}
}
