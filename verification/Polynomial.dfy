// Univariate polynomials over the scalar field, lowest coefficient first.
module Polynomial {
  import opened PrimeField

  type Poly = seq<Fr>

  function Eval(c: Poly, x: Fr): Fr {
    if c == [] then ZERO else Add(c[0], Mul(x, Eval(c[1..], x)))
  }

  lemma EvalConstant(a: Fr, x: Fr)
    ensures Eval([a], x) == a
  {
    assert [a][1..] == [];
    RingBasics(x);
    RingBasics(a);
  }

  function PolyAdd(c: Poly, d: Poly): Poly
    requires |c| == |d|
  {
    seq(|c|, i requires 0 <= i < |c| => Add(c[i], d[i]))
  }

  function PolyScale(k: Fr, c: Poly): Poly {
    seq(|c|, i requires 0 <= i < |c| => Mul(k, c[i]))
  }

  function PolySub(c: Poly, d: Poly): Poly
    requires |c| == |d|
  {
    seq(|c|, i requires 0 <= i < |c| => Sub(c[i], d[i]))
  }

  // The coefficients of (X - a) * c
  function TimesLinear(c: Poly, a: Fr): Poly {
    PolyAdd([ZERO] + c, PolyScale(Sub(ZERO, a), c) + [ZERO])
  }

  lemma {:induction false} EvalAdd(c: Poly, d: Poly, x: Fr)
    requires |c| == |d|
    ensures Eval(PolyAdd(c, d), x) == Add(Eval(c, x), Eval(d, x))
  {
    hide Add, Mul, Red;
    if c == [] {
      RingBasics(ZERO);
    } else {
      EvalAdd(c[1..], d[1..], x);
      assert PolyAdd(c, d)[1..] == PolyAdd(c[1..], d[1..]);
      AddHorner(c[0], d[0], x, Eval(c[1..], x), Eval(d[1..], x));
    }
  }

  lemma AddHorner(a: Fr, b: Fr, x: Fr, p: Fr, q: Fr)
    ensures Add(Add(a, b), Mul(x, Add(p, q))) == Add(Add(a, Mul(x, p)), Add(b, Mul(x, q)))
  {
    hide Add, Mul, Red, Times;
    var i := Onto(a); var j := Onto(b); var k := Onto(x); var l := Onto(p); var m := Onto(q);
    Ring();
    assert (i + j) + k * (l + m) == (i + k * l) + (j + k * m);
  }

  lemma {:induction false} EvalSub(c: Poly, d: Poly, x: Fr)
    requires |c| == |d|
    ensures Eval(PolySub(c, d), x) == Sub(Eval(c, x), Eval(d, x))
  {
    hide Add, Mul, Sub, Red;
    if c == [] {
      RingBasics(ZERO);
    } else {
      EvalSub(c[1..], d[1..], x);
      assert PolySub(c, d)[1..] == PolySub(c[1..], d[1..]);
      SubHorner(c[0], d[0], x, Eval(c[1..], x), Eval(d[1..], x));
    }
  }

  lemma SubHorner(a: Fr, b: Fr, x: Fr, p: Fr, q: Fr)
    ensures Add(Sub(a, b), Mul(x, Sub(p, q))) == Sub(Add(a, Mul(x, p)), Add(b, Mul(x, q)))
  {
    hide Add, Mul, Sub, Red, Times;
    var i := Onto(a); var j := Onto(b); var k := Onto(x); var l := Onto(p); var m := Onto(q);
    Ring();
    assert (i - j) + k * (l - m) == (i + k * l) - (j + k * m);
  }

  lemma {:induction false} EvalScale(k: Fr, c: Poly, x: Fr)
    ensures Eval(PolyScale(k, c), x) == Mul(k, Eval(c, x))
  {
    hide Add, Mul, Red;
    if c == [] {
      RingBasics(k);
    } else {
      EvalScale(k, c[1..], x);
      assert PolyScale(k, c)[1..] == PolyScale(k, c[1..]);
      ScaleHorner(k, c[0], x, Eval(c[1..], x));
    }
  }

  lemma ScaleHorner(k: Fr, a: Fr, x: Fr, p: Fr)
    ensures Add(Mul(k, a), Mul(x, Mul(k, p))) == Mul(k, Add(a, Mul(x, p)))
  {
    hide Add, Mul, Red, Times;
    var i := Onto(k); var j := Onto(a); var l := Onto(x); var m := Onto(p);
    Ring();
    assert i * j + l * (i * m) == i * (j + l * m);
  }

  lemma {:induction false} EvalPadded(c: Poly, x: Fr)
    ensures Eval(c + [ZERO], x) == Eval(c, x)
  {
    hide Add, Mul, Red;
    if c == [] {
      RingBasics(x);
      RingBasics(ZERO);
      assert ([ZERO] + [])[1..] == [];
    } else {
      EvalPadded(c[1..], x);
      assert (c + [ZERO])[1..] == c[1..] + [ZERO];
    }
  }

  lemma EvalTimesLinear(c: Poly, a: Fr, x: Fr)
    ensures Eval(TimesLinear(c, a), x) == Mul(Sub(x, a), Eval(c, x))
  {
    hide Add, Mul, Sub, Red;
    EvalAdd([ZERO] + c, PolyScale(Sub(ZERO, a), c) + [ZERO], x);
    EvalPadded(PolyScale(Sub(ZERO, a), c), x);
    EvalScale(Sub(ZERO, a), c, x);
    assert ([ZERO] + c)[1..] == c;
    LinearFactor(x, a, Eval(c, x));
  }

  lemma LinearFactor(x: Fr, a: Fr, p: Fr)
    ensures Add(Add(ZERO, Mul(x, p)), Mul(Sub(ZERO, a), p)) == Mul(Sub(x, a), p)
  {
    hide Add, Mul, Sub, Red, Times;
    var i := Onto(x); var j := Onto(a); var k := Onto(p);
    Ring();
    assert 0 + i * k + (0 - j) * k == (i - j) * k;
  }

  // Division by X - a
  function Quotient(c: Poly, a: Fr): Poly {
    if |c| <= 1 then [] else [Eval(c[1..], a)] + Quotient(c[1..], a)
  }

  lemma {:induction false} QuotientCorrect(c: Poly, a: Fr, x: Fr)
    ensures |Quotient(c, a)| == if c == [] then 0 else |c| - 1
    ensures Sub(Eval(c, x), Eval(c, a)) == Mul(Sub(x, a), Eval(Quotient(c, a), x))
  {
    hide Add, Mul, Sub, Red;
    if |c| <= 1 {
      RingBasics(Sub(x, a));
      RingBasics(ZERO);
      RingBasics(x);
      RingBasics(a);
      if |c| == 1 {
        assert c[1..] == [];
        RingBasics(c[0]);
      }
    } else {
      QuotientCorrect(c[1..], a, x);
      assert Quotient(c, a)[1..] == Quotient(c[1..], a);
      HornerQuotient(c[0], x, a, Eval(c[1..], x), Eval(c[1..], a), Eval(Quotient(c[1..], a), x));
    }
  }

  lemma HornerQuotient(c0: Fr, x: Fr, a: Fr, px: Fr, pa: Fr, q: Fr)
    requires Sub(px, pa) == Mul(Sub(x, a), q)
    ensures Sub(Add(c0, Mul(x, px)), Add(c0, Mul(a, pa))) == Mul(Sub(x, a), Add(pa, Mul(x, q)))
  {
    hide Add, Mul, Sub, Red, Times;
    var i := Onto(c0); var j := Onto(x); var k := Onto(a); var l := Onto(px); var m := Onto(pa); var n := Onto(q);
    calc {
      Sub(Add(c0, Mul(x, px)), Add(c0, Mul(a, pa)));
      { Ring(); assert (i + j * l) - (i + k * m) == j * (l - m) + (j - k) * m; }
      Add(Mul(x, Sub(px, pa)), Mul(Sub(x, a), pa));
      Add(Mul(x, Mul(Sub(x, a), q)), Mul(Sub(x, a), pa));
      { Ring(); assert j * ((j - k) * n) + (j - k) * m == (j - k) * (m + j * n); }
      Mul(Sub(x, a), Add(pa, Mul(x, q)));
    }
  }

  ghost predicate IsZero(c: Poly) {
    forall i :: 0 <= i < |c| ==> c[i] == ZERO
  }

  lemma {:induction false} ZeroEval(c: Poly, x: Fr)
    requires IsZero(c)
    ensures Eval(c, x) == ZERO
  {
    hide Add, Mul, Red;
    if c != [] {
      ZeroEval(c[1..], x);
      RingBasics(x);
      RingBasics(ZERO);
    }
  }

  lemma {:induction false} ZeroQuotient(c: Poly, a: Fr)
    requires IsZero(Quotient(c, a)) && Eval(c, a) == ZERO
    ensures IsZero(c)
  {
    hide Add, Mul, Red;
    if c != [] {
      var q := Quotient(c, a);
      if |c| == 1 {
        assert c[1..] == [];
        RingBasics(a);
      } else {
        assert q[0] == ZERO && q[1..] == Quotient(c[1..], a);
        ZeroQuotient(c[1..], a);
        RingBasics(a);
      }
      RingBasics(c[0]);
    }
  }

  // A nonzero polynomial has fewer roots than coefficients.
  lemma {:induction false} RootBound(c: Poly, roots: set<Fr>)
    requires IsPrime(MODULUS)
    requires !IsZero(c)
    requires forall x :: x in roots ==> Eval(c, x) == ZERO
    ensures |roots| < |c|
    decreases |c|
  {
    hide Add, Mul, Sub, Red, Eval;
    if roots != {} {
      var a :| a in roots;
      var q := Quotient(c, a);
      if IsZero(q) {
        ZeroQuotient(c, a);
      }
      forall x | x in roots - {a} ensures Eval(q, x) == ZERO {
        QuotientCorrect(c, a, x);
        RingBasics(ZERO);
        NoZeroDivisors(Sub(x, a), Eval(q, x));
        SubZeroIffEqual(x, a);
      }
      QuotientCorrect(c, a, a);
      RootBound(q, roots - {a});
      assert |roots - {a}| == |roots| - 1;
    }
  }

  // Two polynomials with n coefficients that differ anywhere agree on fewer than n points.
  lemma AgreementBound(c: Poly, d: Poly, points: set<Fr>, x0: Fr)
    requires IsPrime(MODULUS)
    requires |c| == |d|
    requires Eval(c, x0) != Eval(d, x0)
    requires forall x :: x in points ==> Eval(c, x) == Eval(d, x)
    ensures |points| < |c|
  {
    hide Add, Mul, Sub, Red, Eval;
    var e := PolySub(c, d);
    EvalSub(c, d, x0);
    SubZeroIffEqual(Eval(c, x0), Eval(d, x0));
    if IsZero(e) { ZeroEval(e, x0); }
    forall x | x in points ensures Eval(e, x) == ZERO {
      EvalSub(c, d, x);
      SubZeroIffEqual(Eval(c, x), Eval(d, x));
    }
    RootBound(e, points);
  }
}
