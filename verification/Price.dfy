// The pair price, derived three times: on chain, in the Go monitor and in the TypeScript keeper.
module Price {
  import opened Wrappers

  const UINT256_MAX: nat := 0xffffffffffffffff_ffffffffffffffff_ffffffffffffffff_ffffffffffffffff
  const UINT64_MAX: nat := 0xffffffffffffffff

  function Pow10(n: nat): (p: nat)
    ensures p > 0
  {
    if n == 0 then 1 else 10 * Pow10(n - 1)
  }

  // Products and quotients of naturals, as bigint and big.Int compute them
  function Mul(a: nat, b: nat): nat { a * b }

  function Quot(a: nat, b: nat): nat
    requires b > 0
  {
    a / b
  }

  // A feed's latest answer (a signed word) and its decimals (a byte)
  datatype Feed = Feed(answer: int, decimals: nat)

  predicate WellTyped(feed: Feed) {
    -0x8000000000000000_0000000000000000_0000000000000000_0000000000000000 <= feed.answer
      < 0x8000000000000000_0000000000000000_0000000000000000_0000000000000000
    && feed.decimals < 256
  }

  // Checked uint256 arithmetic: None is a revert

  function CheckedMul(a: nat, b: nat): Option<nat> {
    if Mul(a, b) <= UINT256_MAX then Some(Mul(a, b)) else None
  }

  function CheckedPow10(n: int): Option<nat> {
    if n < 0 then None else if Pow10(n) <= UINT256_MAX then Some(Pow10(n)) else None
  }

  function Scale(answer: nat, exponent: int): Option<nat> {
    match CheckedPow10(exponent)
    case None => None
    case Some(p) => CheckedMul(answer, p)
  }

  // _readOraclePrice, after the feed addresses were found
  function ReadOraclePrice(feedIn: Feed, feedOut: Feed): Option<nat> {
    if feedIn.answer <= 0 || feedOut.answer <= 0 then None
    else match (Scale(feedIn.answer, 18 - feedIn.decimals), Scale(feedOut.answer, 18 - feedOut.decimals))
      case (Some(normIn), Some(normOut)) =>
        (match Scale(normIn, feedOut.decimals)
         case None => None
         case Some(dividend) =>
           if normOut == 0 then None
           else
             var priceU := Quot(dividend, normOut);
             if 0 < priceU <= UINT64_MAX then Some(priceU) else None)
      case _ => None
  }

  // Go computes 18 - d in uint8, so it wraps, and has no upper bound on the price.
  function GoExponent(decimals: nat): nat {
    (18 + 256 - decimals % 256) % 256
  }

  function GoPairPrice(feedIn: Feed, feedOut: Feed): Option<nat> {
    if feedIn.answer <= 0 || feedOut.answer <= 0 then None
    else
      var normIn := Mul(feedIn.answer, Pow10(GoExponent(feedIn.decimals)));
      var normOut := Mul(feedOut.answer, Pow10(GoExponent(feedOut.decimals)));
      MulPositive(feedOut.answer, Pow10(GoExponent(feedOut.decimals)));
      var priceU := Quot(Mul(normIn, Pow10(feedOut.decimals)), normOut);
      if priceU <= 0 then None else Some(priceU)
  }

  // TypeScript throws on a negative bigint exponent and bounds the price.
  function TsPairPrice(feedIn: Feed, feedOut: Feed): Option<nat> {
    if feedIn.answer <= 0 || feedOut.answer <= 0 then None
    else if feedIn.decimals > 18 || feedOut.decimals > 18 then None
    else
      var normIn := Mul(feedIn.answer, Pow10(18 - feedIn.decimals));
      var normOut := Mul(feedOut.answer, Pow10(18 - feedOut.decimals));
      MulPositive(feedOut.answer, Pow10(18 - feedOut.decimals));
      var priceU := Quot(Mul(normIn, Pow10(feedOut.decimals)), normOut);
      if priceU <= 0 || priceU > UINT64_MAX then None else Some(priceU)
  }

  lemma MulPositive(a: nat, b: nat)
    requires a > 0 && b > 0
    ensures Mul(a, b) >= a && Mul(a, b) > 0
  {}

  // The intermediate products of the contract fit in a word.
  ghost predicate FitsWord(feedIn: Feed, feedOut: Feed)
    requires feedIn.decimals <= 18 && feedOut.decimals <= 18 && feedIn.answer > 0 && feedOut.answer > 0
  {
    && Mul(Mul(feedIn.answer, Pow10(18 - feedIn.decimals)), Pow10(feedOut.decimals)) <= UINT256_MAX
    && Mul(feedOut.answer, Pow10(18 - feedOut.decimals)) <= UINT256_MAX
  }

  lemma {:induction false} Pow10Mono(m: nat, n: nat)
    requires m <= n
    ensures Pow10(m) <= Pow10(n)
  {
    if m < n { Pow10Mono(m, n - 1); }
  }

  lemma {:induction false} Pow10Add(m: nat, n: nat)
    ensures Pow10(m + n) == Pow10(m) * Pow10(n)
  {
    if m > 0 {
      Pow10Add(m - 1, n);
      assert 10 * (Pow10(m - 1) * Pow10(n)) == (10 * Pow10(m - 1)) * Pow10(n);
    }
  }

  lemma SmallPowerFits(n: nat)
    requires n <= 18
    ensures Pow10(n) <= UINT256_MAX
  {
    Pow10Mono(n, 18);
    Pow10Of18();
  }

  lemma Pow10Of18()
    ensures Pow10(18) == 1000000000000000000
  {
    assert Pow10(6) == 1000000;
    assert Pow10(12) == 1000000000000;
  }

  // The contract answers exactly when the keeper does and its intermediate products fit, and
  // then both give the same price. Against the monitor the decimals and the uint64 range of the
  // price have to be asked for as well.
  lemma PricesAgree(feedIn: Feed, feedOut: Feed, p: nat)
    requires WellTyped(feedIn) && WellTyped(feedOut)
    ensures ReadOraclePrice(feedIn, feedOut) == Some(p)
      <==> TsPairPrice(feedIn, feedOut) == Some(p) && FitsWord(feedIn, feedOut)
    ensures ReadOraclePrice(feedIn, feedOut) == Some(p)
      <==> (&& feedIn.decimals <= 18 && feedOut.decimals <= 18 && p <= UINT64_MAX
            && GoPairPrice(feedIn, feedOut) == Some(p) && FitsWord(feedIn, feedOut))
  {
    if ReadOraclePrice(feedIn, feedOut).Some? { PriceNeeds(feedIn, feedOut); }
    if TsPairPrice(feedIn, feedOut).Some? { TsPriceNeeds(feedIn, feedOut); }
    if GoPairPrice(feedIn, feedOut).Some? { GoPriceNeeds(feedIn, feedOut); }
    hide Pow10, Mul, Quot, ReadOraclePrice, TsPairPrice, GoPairPrice, FitsWord;
    if feedIn.answer > 0 && feedOut.answer > 0 && feedIn.decimals <= 18 && feedOut.decimals <= 18 {
      OraclePriceCases(feedIn, feedOut);
      OffChainPriceCases(feedIn, feedOut);
    }
  }

  lemma TsPriceNeeds(feedIn: Feed, feedOut: Feed)
    requires TsPairPrice(feedIn, feedOut).Some?
    ensures feedIn.answer > 0 && feedOut.answer > 0 && feedIn.decimals <= 18 && feedOut.decimals <= 18
  {
    hide Pow10, Mul, Quot;
  }

  lemma GoPriceNeeds(feedIn: Feed, feedOut: Feed)
    requires GoPairPrice(feedIn, feedOut).Some?
    ensures feedIn.answer > 0 && feedOut.answer > 0
  {
    hide Pow10, Mul, Quot;
  }

  lemma OffChainPriceCases(feedIn: Feed, feedOut: Feed)
    requires feedIn.answer > 0 && feedOut.answer > 0 && feedIn.decimals <= 18 && feedOut.decimals <= 18
    ensures Mul(feedOut.answer, Pow10(18 - feedOut.decimals)) > 0
    ensures var price := Quot(Mul(Mul(feedIn.answer, Pow10(18 - feedIn.decimals)), Pow10(feedOut.decimals)),
                              Mul(feedOut.answer, Pow10(18 - feedOut.decimals)));
      && TsPairPrice(feedIn, feedOut) == (if 0 < price <= UINT64_MAX then Some(price) else None)
      && GoPairPrice(feedIn, feedOut) == (if 0 < price then Some(price) else None)
  {
    hide Pow10, Mul, Quot;
    MulPositive(feedOut.answer, Pow10(18 - feedOut.decimals));
  }

  lemma PriceNeeds(feedIn: Feed, feedOut: Feed)
    requires ReadOraclePrice(feedIn, feedOut).Some?
    ensures feedIn.answer > 0 && feedOut.answer > 0 && feedIn.decimals <= 18 && feedOut.decimals <= 18
  {
    hide Pow10, Mul, Quot;
  }

  // On feeds with at most 18 decimals only the three products can overflow, and if the last one
  // of a quotient's dividend does not, neither does the first.
  lemma OraclePriceCases(feedIn: Feed, feedOut: Feed)
    requires feedIn.answer > 0 && feedOut.answer > 0 && feedIn.decimals <= 18 && feedOut.decimals <= 18
    ensures Mul(feedOut.answer, Pow10(18 - feedOut.decimals)) > 0
    ensures var price := Quot(Mul(Mul(feedIn.answer, Pow10(18 - feedIn.decimals)), Pow10(feedOut.decimals)),
                              Mul(feedOut.answer, Pow10(18 - feedOut.decimals)));
      ReadOraclePrice(feedIn, feedOut)
        == if FitsWord(feedIn, feedOut) && 0 < price <= UINT64_MAX then Some(price) else None
  {
    hide Pow10, Mul, Quot;
    SmallPowerFits(18 - feedIn.decimals);
    SmallPowerFits(18 - feedOut.decimals);
    SmallPowerFits(feedOut.decimals);
    MulPositive(feedIn.answer, Pow10(18 - feedIn.decimals));
    MulPositive(feedOut.answer, Pow10(18 - feedOut.decimals));
    MulPositive(Mul(feedIn.answer, Pow10(18 - feedIn.decimals)), Pow10(feedOut.decimals));
  }

  // The exact ratio of the two USD prices, in units of the output feed

  ghost function Usd(feed: Feed): real {
    feed.answer as real / Pow10(feed.decimals) as real
  }

  ghost function ExactRatio(feedIn: Feed, feedOut: Feed): real
    requires feedOut.answer > 0
  {
    UsdPositive(feedOut);
    Usd(feedIn) / Usd(feedOut) * Pow10(feedOut.decimals) as real
  }

  lemma UsdPositive(feed: Feed)
    requires feed.answer > 0
    ensures Usd(feed) > 0.0
  {
    RealQuotient(feed.answer as real, Pow10(feed.decimals) as real);
  }

  lemma RealQuotient(a: real, b: real)
    requires a > 0.0 && b > 0.0
    ensures a / b > 0.0 && (a / b) * b == a
  {}

  // Clearing the denominators of the exact ratio
  lemma CrossMultiply(a: real, b: real, p: real, p': real, q: real, q': real, t: real)
    requires a > 0.0 && b > 0.0 && p > 0.0 && q > 0.0 && p * p' == t && q * q' == t
    ensures a / p > 0.0 && b / q > 0.0
    ensures ((a / p) / (b / q)) * q * (b * q') == a * p' * q
  {
    var x, y := a / p, b / q;
    RealQuotient(a, p);
    RealQuotient(b, q);
    var z := x / y;
    RealQuotient(x, y);
    calc {
      z * q * (b * q');
      { assert b == y * q; }
      z * q * ((y * q) * q');
      { Rearrange(z, q, y, q'); }
      (z * y) * q * (q * q');
      x * q * t;
      x * q * (p * p');
      { RearrangeBack(x, q, p, p'); }
      (x * p) * p' * q;
      a * p' * q;
    }
  }

  lemma Rearrange(z: real, q: real, y: real, q': real)
    ensures z * q * ((y * q) * q') == (z * y) * q * (q * q')
  {}

  lemma RearrangeBack(x: real, q: real, p: real, p': real)
    ensures x * q * (p * p') == (x * p) * p' * q
  {}

  lemma FloorOfRatio(n: nat, d: nat, r: real)
    requires d > 0 && IsRatio(r, n, d)
    ensures Quot(n, d) == r.Floor
  {
    var p := n / d;
    var k := n % d;
    assert n == p * d + k;
    assert n as real == p as real * d as real + k as real;
    assert (r - p as real) * d as real == k as real;
    Bracket(r - p as real, d as real, k as real);
  }

  // The sign of a product with a positive factor
  lemma Sign(x: real, d: real)
    requires d > 0.0
    ensures x * d > 0.0 <==> x > 0.0
    ensures x * d >= 0.0 <==> x >= 0.0
  {}

  lemma Bracket(x: real, d: real, k: real)
    requires d > 0.0 && x * d == k && 0.0 <= k < d
    ensures 0.0 <= x < 1.0
  {
    Sign(x, d);
    Sign(1.0 - x, d);
    assert (1.0 - x) * d == d - k;
  }

  lemma PriceQuotient(feedIn: Feed, feedOut: Feed)
    requires ReadOraclePrice(feedIn, feedOut).Some?
    ensures feedIn.answer > 0 && feedOut.answer > 0 && feedIn.decimals <= 18 && feedOut.decimals <= 18
    ensures Mul(feedOut.answer, Pow10(18 - feedOut.decimals)) > 0
    ensures ReadOraclePrice(feedIn, feedOut).value
         == Quot(Mul(Mul(feedIn.answer, Pow10(18 - feedIn.decimals)), Pow10(feedOut.decimals)),
                 Mul(feedOut.answer, Pow10(18 - feedOut.decimals)))
  {
    hide Pow10, Mul, Quot;
  }

  // r is the quotient of a / p and b / q, in units of q.
  ghost predicate IsQuotient(r: real, a: nat, p: nat, b: nat, q: nat) {
    p > 0 && q > 0 && b as real / q as real > 0.0 && r == ((a as real / p as real) / (b as real / q as real)) * q as real
  }

  ghost predicate IsRatio(r: real, n: nat, d: nat) {
    r * d as real == n as real
  }

  lemma RatioEquation(feedIn: Feed, feedOut: Feed)
    requires feedIn.answer > 0 && feedOut.answer > 0 && feedIn.decimals <= 18 && feedOut.decimals <= 18
    ensures IsRatio(ExactRatio(feedIn, feedOut), Mul(Mul(feedIn.answer, Pow10(18 - feedIn.decimals)), Pow10(feedOut.decimals)),
                    Mul(feedOut.answer, Pow10(18 - feedOut.decimals)))
  {
    hide Pow10, Mul, ExactRatio, IsQuotient, IsRatio;
    ScaledPowers(feedIn.decimals);
    ScaledPowers(feedOut.decimals);
    ExactRatioIs(feedIn, feedOut);
    ClearedRatio(feedIn.answer, feedOut.answer, Pow10(feedIn.decimals), Pow10(18 - feedIn.decimals),
                 Pow10(feedOut.decimals), Pow10(18 - feedOut.decimals), Pow10(18), ExactRatio(feedIn, feedOut));
  }

  lemma ExactRatioIs(feedIn: Feed, feedOut: Feed)
    requires feedIn.answer > 0 && feedOut.answer > 0
    ensures IsQuotient(ExactRatio(feedIn, feedOut), feedIn.answer, Pow10(feedIn.decimals), feedOut.answer, Pow10(feedOut.decimals))
  {
    hide Pow10;
    UsdPositive(feedOut);
  }

  lemma ClearedRatio(a: nat, b: nat, p: nat, p': nat, q: nat, q': nat, t: nat, r: real)
    requires a > 0 && b > 0 && Mul(p, p') == t && Mul(q, q') == t && IsQuotient(r, a, p, b, q)
    ensures IsRatio(r, Mul(Mul(a, p'), q), Mul(b, q'))
  {
    hide Mul;
    MulReal(p, p');
    MulReal(q, q');
    MulReal(a, p');
    MulReal(Mul(a, p'), q);
    MulReal(b, q');
    CrossMultiply(a as real, b as real, p as real, p' as real, q as real, q' as real, t as real);
  }

  lemma ScaledPowers(d: nat)
    requires d <= 18
    ensures Mul(Pow10(d), Pow10(18 - d)) == Pow10(18)
  {
    hide Pow10;
    Pow10Add(d, 18 - d);
  }

  lemma MulReal(a: nat, b: nat)
    ensures Mul(a, b) as real == a as real * b as real
  {
    RealProduct(a, b, Mul(a, b));
  }

  // The price on chain is the exact ratio, rounded down.
  lemma PriceIsFloor(feedIn: Feed, feedOut: Feed)
    requires ReadOraclePrice(feedIn, feedOut).Some?
    ensures feedIn.answer > 0 && feedOut.answer > 0 && feedIn.decimals <= 18 && feedOut.decimals <= 18
    ensures ReadOraclePrice(feedIn, feedOut).value == ExactRatio(feedIn, feedOut).Floor
  {
    hide Pow10, Mul, ReadOraclePrice, ExactRatio;
    PriceQuotient(feedIn, feedOut);
    RatioEquation(feedIn, feedOut);
    FloorOfRatio(Mul(Mul(feedIn.answer, Pow10(18 - feedIn.decimals)), Pow10(feedOut.decimals)),
                 Mul(feedOut.answer, Pow10(18 - feedOut.decimals)), ExactRatio(feedIn, feedOut));
  }

  lemma RealProduct(a: nat, b: nat, c: nat)
    requires a * b == c
    ensures a as real * b as real == c as real
  {}

  lemma RatioMonotone(a: real, a': real, b: real, b': real)
    requires 0.0 < a <= a' && 0.0 < b' <= b
    ensures a / b <= a' / b'
  {
    var x, y := a / b, a' / b';
    RealQuotient(a, b);
    RealQuotient(a', b');
    Sign(b - b', x);
    assert x * b - x * b' == (b - b') * x;
    assert (y - x) * b' == y * b' - x * b';
    Sign(y - x, b');
  }

  // A larger answer in or a smaller answer out never lowers the price.
  lemma PriceMonotone(feedIn: Feed, feedIn': Feed, feedOut: Feed, feedOut': Feed)
    requires ReadOraclePrice(feedIn, feedOut).Some? && ReadOraclePrice(feedIn', feedOut').Some?
    requires feedIn.decimals == feedIn'.decimals && feedOut.decimals == feedOut'.decimals
    requires feedIn.answer <= feedIn'.answer && feedOut'.answer <= feedOut.answer
    ensures ReadOraclePrice(feedIn, feedOut).value <= ReadOraclePrice(feedIn', feedOut').value
  {
    hide Pow10, ReadOraclePrice, ExactRatio;
    PriceIsFloor(feedIn, feedOut);
    PriceIsFloor(feedIn', feedOut');
    RatiosMonotone(feedIn, feedIn', feedOut, feedOut');
    FloorMonotone(ExactRatio(feedIn, feedOut), ExactRatio(feedIn', feedOut'));
  }

  lemma RatiosMonotone(feedIn: Feed, feedIn': Feed, feedOut: Feed, feedOut': Feed)
    requires 0 < feedIn.answer <= feedIn'.answer && 0 < feedOut'.answer <= feedOut.answer
    requires feedIn.decimals == feedIn'.decimals && feedOut.decimals == feedOut'.decimals
    ensures ExactRatio(feedIn, feedOut) <= ExactRatio(feedIn', feedOut')
  {
    hide Pow10, Usd;
    UsdMonotone(feedIn, feedIn');
    UsdMonotone(feedOut', feedOut);
    var x, x' := Usd(feedIn) / Usd(feedOut), Usd(feedIn') / Usd(feedOut');
    RatioMonotone(Usd(feedIn), Usd(feedIn'), Usd(feedOut), Usd(feedOut'));
    var q := Pow10(feedOut.decimals) as real;
    Sign(x' - x, q);
    assert (x' - x) * q == x' * q - x * q;
  }

  lemma UsdMonotone(feed: Feed, feed': Feed)
    requires 0 < feed.answer <= feed'.answer && feed.decimals == feed'.decimals
    ensures 0.0 < Usd(feed) <= Usd(feed')
  {
    UsdPositive(feed);
    var p := Pow10(feed.decimals) as real;
    RatioMonotone(feed.answer as real, feed'.answer as real, p, p);
  }

  lemma FloorMonotone(x: real, y: real)
    requires x <= y
    ensures x.Floor <= y.Floor
  {}

  // A round trip through both directions never gains.
  lemma RoundTripPrice(feedA: Feed, feedB: Feed)
    requires ReadOraclePrice(feedA, feedB).Some? && ReadOraclePrice(feedB, feedA).Some?
    ensures ReadOraclePrice(feedA, feedB).value * ReadOraclePrice(feedB, feedA).value
         <= Pow10(feedA.decimals + feedB.decimals)
  {
    hide Pow10, ReadOraclePrice, ExactRatio;
    PriceIsFloor(feedA, feedB);
    PriceIsFloor(feedB, feedA);
    ExactRatiosMultiply(feedA, feedB);
    Pow10Add(feedA.decimals, feedB.decimals);
    RealProduct(Pow10(feedA.decimals), Pow10(feedB.decimals), Pow10(feedA.decimals + feedB.decimals));
    BoundedProduct(ReadOraclePrice(feedA, feedB).value, ReadOraclePrice(feedB, feedA).value,
                   ExactRatio(feedA, feedB), ExactRatio(feedB, feedA));
  }

  lemma ExactRatiosMultiply(feedA: Feed, feedB: Feed)
    requires feedA.answer > 0 && feedB.answer > 0
    ensures ExactRatio(feedA, feedB) * ExactRatio(feedB, feedA)
         == Pow10(feedA.decimals) as real * Pow10(feedB.decimals) as real
  {
    hide Pow10, Usd;
    UsdPositive(feedA);
    UsdPositive(feedB);
    var u, v := Usd(feedA) / Usd(feedB), Usd(feedB) / Usd(feedA);
    ReciprocalRatios(Usd(feedA), Usd(feedB), u, v);
    UnitProduct(u, v, Pow10(feedB.decimals) as real, Pow10(feedA.decimals) as real);
  }

  lemma UnitProduct(u: real, v: real, q: real, p: real)
    requires u * v == 1.0
    ensures (u * q) * (v * p) == p * q
  {
    var w, r := u * v, p * q;
    assert (u * q) * (v * p) == w * r;
  }

  lemma ReciprocalRatios(x: real, y: real, u: real, v: real)
    requires x > 0.0 && y > 0.0 && u == x / y && v == y / x
    ensures u * v == 1.0
  {
    RealQuotient(x, y);
    RealQuotient(y, x);
    var w := u * v;
    assert w * x == u * (v * x);
    Sign(w - 1.0, x);
    Sign(1.0 - w, x);
    assert (w - 1.0) * x == w * x - x;
    assert (1.0 - w) * x == x - w * x;
  }

  lemma BoundedProduct(m: nat, n: nat, x: real, y: real)
    requires m as real <= x && n as real <= y
    ensures (m * n) as real <= x * y
  {
    assert (x - m as real) * y >= 0.0;
    assert (y - n as real) * m as real >= 0.0;
    assert x * y >= m as real * y >= m as real * n as real;
  }
}
