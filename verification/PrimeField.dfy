// The scalar field of the UltraHonk verifier: residues modulo the BN254 group order.
// The functions below avoid * and %, so that a proof meets those only where it asks for them; that
// they are the addmod and mulmod of the contract is OperationsAreModular.
module PrimeField {
  const MODULUS: nat := 21888242871839275222246405745257275088548364400416034343698204186575808495617

  newtype Residue = x: int | 0 <= x < MODULUS

  // The contract's value type over uint256, holding canonical residues only.
  datatype Fr = Fr(v: Residue)

  // The residue of an integer: the one value in range that differs from it by a multiple of the
  // modulus. A ring homomorphism from int onto Fr (see Ring).
  function Red(x: int): Fr
    decreases x < 0, if x < 0 then -x else x
  {
    if x < 0 then Red(x + MODULUS) else if x < MODULUS then Fr(x as Residue) else Red(x - MODULUS)
  }

  lemma {:induction false} RedIsRemainder(x: int)
    ensures Red(x).v as int == x % MODULUS
    decreases x < 0, if x < 0 then -x else x
  {
    if x < 0 {
      RedIsRemainder(x + MODULUS);
      SameRemainder(x, x + MODULUS);
    } else if x >= MODULUS {
      RedIsRemainder(x - MODULUS);
      SameRemainder(x - MODULUS, x);
    }
  }

  lemma SameRemainder(x: int, y: int)
    requires y == x + MODULUS
    ensures y % MODULUS == x % MODULUS
  {
    var q, r := x / MODULUS, x % MODULUS;
    assert y == (q + 1) * MODULUS + r;
  }

  // The product of two integers
  function Times(x: int, y: int): int
    decreases if x < 0 then -x else x
  {
    if x == 0 then 0 else if x > 0 then y + Times(x - 1, y) else Times(x + 1, y) - y
  }

  lemma {:induction false} TimesIsProduct(x: int, y: int)
    ensures Times(x, y) == x * y
    decreases if x < 0 then -x else x
  {
    if x > 0 {
      TimesIsProduct(x - 1, y);
      assert x * y == y + (x - 1) * y;
    } else if x < 0 {
      TimesIsProduct(x + 1, y);
      assert x * y == (x + 1) * y - y;
    }
  }

  function Add(a: Fr, b: Fr): Fr { Red(a.v as int + b.v as int) }

  function Mul(a: Fr, b: Fr): Fr { Red(Times(a.v as int, b.v as int)) }

  function Sub(a: Fr, b: Fr): Fr { Red(a.v as int + (MODULUS - b.v as int)) }

  // add, mul and sub are addmod(a, b), mulmod(a, b) and addmod(a, MODULUS - b).
  lemma OperationsAreModular(a: Fr, b: Fr)
    ensures Add(a, b).v as int == (a.v as int + b.v as int) % MODULUS
    ensures Mul(a, b).v as int == (a.v as int * b.v as int) % MODULUS
    ensures Sub(a, b).v as int == (a.v as int + (MODULUS - b.v as int)) % MODULUS
  {
    var x, y := a.v as int, b.v as int;
    RedIsRemainder(x + y);
    RedIsRemainder(x + (MODULUS - y));
    RedIsRemainder(x * y);
    TimesIsProduct(x, y);
    hide Red, Times;
  }

  const ZERO := Red(0)
  const ONE := Red(1)

  lemma ModPlusMultiple(x: int, k: int)
    ensures Red(x + k * MODULUS) == Red(x)
  {
    var q, r := x / MODULUS, x % MODULUS;
    assert x + k * MODULUS == (q + k) * MODULUS + r;
    RedIsRemainder(x);
    RedIsRemainder(x + k * MODULUS);
  }

  lemma RedAdd(x: int, y: int)
    ensures Add(Red(x), Red(y)) == Red(x + y)
  {
    RedIsRemainder(x);
    RedIsRemainder(y);
    var q, r := x / MODULUS, x % MODULUS;
    var s, t := y / MODULUS, y % MODULUS;
    ModPlusMultiple(r + t, q + s);
    assert x + y == r + t + (q + s) * MODULUS;
  }

  lemma RedSub(x: int, y: int)
    ensures Sub(Red(x), Red(y)) == Red(x - y)
  {
    RedIsRemainder(x);
    RedIsRemainder(y);
    var q, r := x / MODULUS, x % MODULUS;
    var s, t := y / MODULUS, y % MODULUS;
    ModPlusMultiple(r + (MODULUS - t), q - s - 1);
    assert x - y == r + (MODULUS - t) + (q - s - 1) * MODULUS;
  }

  lemma Expand(m: int, q: int, r: int, s: int, t: int)
    ensures (q * m + r) * (s * m + t) == r * t + (q * s * m + q * t + r * s) * m
  {}

  lemma RedMul(x: int, y: int)
    ensures Mul(Red(x), Red(y)) == Red(Times(x, y))
  {
    RedIsRemainder(x);
    RedIsRemainder(y);
    var q, r := x / MODULUS, x % MODULUS;
    var s, t := y / MODULUS, y % MODULUS;
    TimesIsProduct(r, t);
    TimesIsProduct(x, y);
    assert Mul(Red(x), Red(y)) == Red(r * t);
    hide *;
    Expand(MODULUS, q, r, s, t);
    ModPlusMultiple(r * t, q * s * MODULUS + q * t + r * s);
  }

  lemma Onto(a: Fr) returns (x: int)
    ensures a == Red(x)
  {
    x := a.v as int;
  }

  // Every field expression over residues is the residue of the integer expression.
  lemma Ring()
    ensures forall x: int, y: int {:trigger Add(Red(x), Red(y))} :: Add(Red(x), Red(y)) == Red(x + y)
    ensures forall x: int, y: int {:trigger Sub(Red(x), Red(y))} :: Sub(Red(x), Red(y)) == Red(x - y)
    ensures forall x: int, y: int {:trigger Mul(Red(x), Red(y))} :: Mul(Red(x), Red(y)) == Red(Times(x, y))
    ensures forall x: int, y: int :: Times(x, y) == x * y
  {
    hide Add, Sub, Mul, Red, Times;
    forall x: int, y: int
      ensures Add(Red(x), Red(y)) == Red(x + y)
      ensures Sub(Red(x), Red(y)) == Red(x - y)
      ensures Mul(Red(x), Red(y)) == Red(Times(x, y))
      ensures Times(x, y) == x * y
    {
      RedAdd(x, y);
      RedSub(x, y);
      RedMul(x, y);
      TimesIsProduct(x, y);
    }
  }

  lemma MulComm(a: Fr, b: Fr)
    ensures Mul(a, b) == Mul(b, a)
  {
    TimesIsProduct(a.v as int, b.v as int);
    TimesIsProduct(b.v as int, a.v as int);
  }

  lemma MulAssoc(a: Fr, b: Fr, c: Fr)
    ensures Mul(Mul(a, b), c) == Mul(a, Mul(b, c))
  {
    hide Mul, Red, Times;
    var x := Onto(a); var y := Onto(b); var z := Onto(c);
    Ring();
    assert (x * y) * z == x * (y * z);
  }

  lemma Distrib(a: Fr, b: Fr, c: Fr)
    ensures Mul(a, Add(b, c)) == Add(Mul(a, b), Mul(a, c))
  {
    hide Add, Mul, Red, Times;
    var x := Onto(a); var y := Onto(b); var z := Onto(c);
    Ring();
    assert x * (y + z) == x * y + x * z;
  }

  lemma RingBasics(a: Fr)
    ensures Add(a, ZERO) == a && Add(ZERO, a) == a && Sub(a, a) == ZERO && Sub(a, ZERO) == a
    ensures Mul(a, ONE) == a && Mul(ONE, a) == a && Mul(a, ZERO) == ZERO && Mul(ZERO, a) == ZERO
  {
    TimesIsProduct(a.v as int, 1);
    TimesIsProduct(a.v as int, 0);
    TimesIsProduct(1, a.v as int);
  }

  lemma SubZeroIffEqual(a: Fr, b: Fr)
    ensures Sub(a, b) == ZERO <==> a == b
  {
    var x, y := a.v as int, b.v as int;
    if x < y {
      assert 0 < x + (MODULUS - y) < MODULUS;
    } else {
      ModPlusMultiple(x - y, 1);
    }
  }

  // Powers, as the modexp precompile computes them
  function Pow(b: Fr, n: nat): Fr {
    if n == 0 then ONE else Mul(b, Pow(b, n - 1))
  }

  lemma {:induction false} PowAdd(b: Fr, m: nat, n: nat, p: Fr, q: Fr)
    requires p == Pow(b, m) && q == Pow(b, n)
    ensures Pow(b, m + n) == Mul(p, q)
  {
    if m == 0 {
      RingBasics(q);
    } else {
      PowAdd(b, m - 1, n, Pow(b, m - 1), q);
      MulAssoc(b, Pow(b, m - 1), q);
    }
  }

  // Primality of the modulus is a hypothesis of every theorem that divides.
  ghost predicate IsPrime(p: nat) {
    p > 1 && forall d: nat :: 1 < d < p ==> p % d != 0
  }

  // One step of Euclid's algorithm on MODULUS == n * q + r, read backwards.
  lemma InverseStep(n: int, q: int, r: int, t: int)
    requires n * q + r == MODULUS && Mul(Red(r), Red(t)) == ONE
    ensures Mul(Red(n), Red(0 - q * t)) == ONE
  {
    hide Mul, Red;
    RedMul(n, 0 - q * t);
    RedMul(r, t);
    TimesIsProduct(n, 0 - q * t);
    TimesIsProduct(r, t);
    calc {
      n * (0 - q * t);
      r * t + (0 - t) * (n * q + r);
      r * t + (0 - t) * MODULUS;
    }
    ModPlusMultiple(r * t, 0 - t);
  }

  lemma {:induction false} InverseExists(a: Fr) returns (w: Fr)
    requires IsPrime(MODULUS) && a != ZERO
    ensures Mul(a, w) == ONE
    decreases a.v as int
  {
    hide Mul;
    var n := a.v as int;
    if n == 1 {
      w := ONE;
      RingBasics(ONE);
    } else {
      var q, r := MODULUS / n, MODULUS % n;
      assert 0 < r < n;
      var s := InverseExists(Red(r));
      InverseStep(n, q, r, s.v as int);
      w := Red(0 - q * s.v as int);
    }
  }

  lemma NoZeroDivisors(a: Fr, b: Fr)
    requires IsPrime(MODULUS) && Mul(a, b) == ZERO
    ensures a == ZERO || b == ZERO
  {
    if a != ZERO {
      var w := InverseExists(a);
      hide Mul, Red;
      MulComm(a, w);
      MulAssoc(w, a, b);
      RingBasics(b);
      RingBasics(w);
    }
  }

  lemma Cancel(a: Fr, b: Fr, c: Fr)
    requires IsPrime(MODULUS) && a != ZERO && Mul(a, b) == Mul(a, c)
    ensures b == c
  {
    hide Mul, Sub, Red, Times;
    var x := Onto(a); var y := Onto(b); var z := Onto(c);
    assert Mul(a, Sub(b, c)) == Sub(Mul(a, b), Mul(a, c)) by {
      Ring();
      assert x * (y - z) == x * y - x * z;
    }
    SubZeroIffEqual(Mul(a, b), Mul(a, c));
    NoZeroDivisors(a, Sub(b, c));
    SubZeroIffEqual(b, c);
  }
}
