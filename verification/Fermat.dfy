// FrLib.invert raises to the power MODULUS - 2. Under primality that is the inverse (Fermat).
module Fermat {
  import opened PrimeField
  import opened Wrappers

  // FrLib.invert: reverts on zero, otherwise one modexp call
  function Invert(v: Fr): Option<Fr> {
    if v == ZERO then None else Some(Pow(v, MODULUS - 2))
  }

  ghost function Product(s: set<Fr>): Fr {
    if s == {} then ONE else var x :| x in s; Mul(x, Product(s - {x}))
  }

  lemma {:induction false} ProductRemove(s: set<Fr>, y: Fr)
    requires y in s
    ensures Product(s) == Mul(y, Product(s - {y}))
  {
    hide Mul;
    var x :| x in s && Product(s) == Mul(x, Product(s - {x}));
    if x != y {
      var rest := s - {x} - {y};
      ProductRemove(s - {x}, y);
      ProductRemove(s - {y}, x);
      assert s - {y} - {x} == rest;
      MulAssoc(x, y, Product(rest));
      MulAssoc(y, x, Product(rest));
      MulComm(x, y);
    }
  }

  ghost function Scaled(a: Fr, s: set<Fr>): set<Fr> {
    set x | x in s :: Mul(a, x)
  }

  lemma {:induction false} ProductScaled(a: Fr, s: set<Fr>)
    requires IsPrime(MODULUS) && a != ZERO
    ensures Product(Scaled(a, s)) == Mul(Pow(a, |s|), Product(s))
    ensures |Scaled(a, s)| == |s|
  {
    hide Mul;
    if s == {} {
      RingBasics(ONE);
    } else {
      var x :| x in s;
      var r := s - {x};
      ProductScaled(a, r);
      forall y | y in r ensures Mul(a, y) != Mul(a, x) {
        if Mul(a, y) == Mul(a, x) { Cancel(a, y, x); }
      }
      assert Scaled(a, s) == Scaled(a, r) + {Mul(a, x)};
      assert Scaled(a, s) - {Mul(a, x)} == Scaled(a, r);
      ProductRemove(Scaled(a, s), Mul(a, x));
      ProductRemove(s, x);
      Interchange(a, x, Pow(a, |r|), Product(r));
    }
  }

  lemma Interchange(a: Fr, b: Fr, c: Fr, d: Fr)
    ensures Mul(Mul(a, b), Mul(c, d)) == Mul(Mul(a, c), Mul(b, d))
  {
    hide Mul, Red, Times;
    var i := Onto(a); var j := Onto(b); var k := Onto(c); var l := Onto(d);
    Ring();
    assert (i * j) * (k * l) == (i * k) * (j * l);
  }

  // The residues from lo up to but not including hi
  ghost function Range(lo: nat, hi: nat): set<Fr> {
    set i: int | lo <= i < hi :: Red(i)
  }

  lemma RedInjective(i: nat, j: nat)
    requires i < MODULUS && j < MODULUS && Red(i) == Red(j)
    ensures i == j
  {}

  lemma {:induction false} RangeCount(lo: nat, hi: nat)
    requires lo <= hi <= MODULUS
    ensures |Range(lo, hi)| == hi - lo
    decreases hi
  {
    hide Red;
    if lo < hi {
      RangeCount(lo, hi - 1);
      assert Range(lo, hi) == Range(lo, hi - 1) + {Red(hi - 1)};
      if Red(hi - 1) in Range(lo, hi - 1) {
        var i :| lo <= i < hi - 1 && Red(i) == Red(hi - 1);
        RedInjective(i, hi - 1);
      }
    }
  }

  lemma UnitsAreNonzero(x: Fr)
    ensures x in Range(1, MODULUS) <==> x != ZERO
  {
    if x != ZERO {
      assert x == Red(x.v as int);
    }
  }

  lemma SubsetOfSameSize<T>(s: set<T>, t: set<T>)
    requires s <= t && |s| == |t|
    ensures s == t
  {
    assert |t - s| == |t| - |s|;
  }

  lemma {:induction false} ProductNonzero(s: set<Fr>)
    requires IsPrime(MODULUS) && ZERO !in s
    ensures Product(s) != ZERO
  {
    if s != {} {
      var x :| x in s && Product(s) == Mul(x, Product(s - {x}));
      ProductNonzero(s - {x});
      if Product(s) == ZERO { NoZeroDivisors(x, Product(s - {x})); }
    }
  }

  lemma LittleFermat(a: Fr)
    requires IsPrime(MODULUS) && a != ZERO
    ensures Pow(a, MODULUS - 1) == ONE
  {
    hide Mul, Pow;
    var all := Range(1, MODULUS);
    RangeCount(1, MODULUS);
    ProductScaled(a, all);
    forall x | x in Scaled(a, all) ensures x in all {
      var y :| y in all && x == Mul(a, y);
      UnitsAreNonzero(y);
      UnitsAreNonzero(x);
      if x == ZERO { NoZeroDivisors(a, y); }
    }
    SubsetOfSameSize(Scaled(a, all), all);
    UnitsAreNonzero(ZERO);
    ProductNonzero(all);
    MulComm(Pow(a, |all|), Product(all));
    RingBasics(Product(all));
    Cancel(Product(all), Pow(a, |all|), ONE);
  }

  // The modexp call of invert returns the inverse of every nonzero value, and invert
  // reverts exactly on zero.
  lemma InvertCorrect(v: Fr)
    requires IsPrime(MODULUS)
    ensures Invert(v).None? <==> v == ZERO
    ensures Invert(v).Some? ==> Mul(v, Invert(v).value) == ONE
  {
    hide Mul;
    if v != ZERO {
      LittleFermat(v);
      PowStep(v, MODULUS - 2);
    }
  }

  // The inverse as a total function, for specifications
  ghost function Recip(v: Fr): Fr {
    if Invert(v).Some? then Invert(v).value else ZERO
  }

  lemma RecipCorrect(v: Fr)
    requires IsPrime(MODULUS) && v != ZERO
    ensures Mul(v, Recip(v)) == ONE
  {
    hide Invert;
    InvertCorrect(v);
  }

  lemma PowStep(b: Fr, n: nat)
    ensures Pow(b, n + 1) == Mul(b, Pow(b, n))
  {}
}
