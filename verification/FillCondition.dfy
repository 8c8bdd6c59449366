// When the monitor fires, against what the circuits let the keeper prove.
module FillCondition {
  import opened Wrappers
  import opened Price
  import opened Circuits
  import opened Commitments
  import Monitor

  // What the monitor keeps about a strategy; expiry 0 is none, the limit is what its text parses
  // to, and the window may be missing.
  datatype PendingStrategy = PendingStrategy(kind: Monitor.StrategyKind, expiry: nat, direction: bool, limitPrice: Option<int>,
                                             scheduledLo: Option<nat>, scheduledHi: Option<nat>)

  predicate IsExpired(s: PendingStrategy, now: nat) {
    s.expiry > 0 && now > s.expiry
  }

  // isFillConditionMet of a monitor with or without a registry; a price that cannot be fetched and
  // a limit that cannot be parsed are errors, which do not fire either.
  function FillConditionMet(s: PendingStrategy, hasRegistry: bool, price: Option<nat>, now: nat): bool {
    match s.kind
    case Market => true
    case Dca =>
      s.scheduledLo.Some? && s.scheduledHi.Some? && now >= s.scheduledLo.value && now <= s.scheduledHi.value
    case Limit =>
      && hasRegistry && price.Some? && s.limitPrice.Some?
      && (if s.direction then price.value >= s.limitPrice.value else price.value <= s.limitPrice.value)
  }

  // evaluateAndMaybeTrigger gets as far as marking the row.
  predicate Fires(s: PendingStrategy, hasRegistry: bool, price: Option<nat>, now: nat) {
    !IsExpired(s, now) && FillConditionMet(s, hasRegistry, price, now)
  }

  // A limit order as it is stored: the text of its limit is that of the committed one or unreadable.
  predicate StoredLimit(s: PendingStrategy, f: OrderFields) {
    && s.kind == Monitor.Limit && s.expiry == f.expiry && s.direction == f.direction
    && (s.limitPrice.Some? ==> s.limitPrice.value == f.price)
  }

  // A DCA round as it is stored, with whatever the monitor does not look at
  predicate StoredDca(s: PendingStrategy, f: DcaFields) {
    && s.kind == Monitor.Dca && s.expiry == f.expiry
    && s.scheduledLo == Some(f.scheduledLo) && s.scheduledHi == Some(f.scheduledHi)
  }

  // While the contract has a price for the pair, the monitor fires on a limit order exactly when it
  // has a registry and can read the limit, and the order has not expired and can be proven at the
  // contract's price.
  lemma LimitFiresIffProvable(keccak: Keccak, f: OrderFields, s: PendingStrategy, hasRegistry: bool,
                              feedIn: Feed, feedOut: Feed, now: nat)
    requires OrderInRange(f) && BelowModulus(f.size, f.minOut, f.nonce, f.userSecret) && f.expiry > 0
    requires StoredLimit(s, f)
    requires WellTyped(feedIn) && WellTyped(feedOut) && ReadOraclePrice(feedIn, feedOut).Some?
    ensures Fires(s, hasRegistry, GoPairPrice(feedIn, feedOut), now)
      <==> && hasRegistry && s.limitPrice.Some?
           && now <= f.expiry && OrderProvable(keccak, f, ReadOraclePrice(feedIn, feedOut).value)
  {
    var p := ReadOraclePrice(feedIn, feedOut).value;
    PricesAgree(feedIn, feedOut, p);
    hide ReadOraclePrice, GoPairPrice, TsPairPrice, OrderProvable;
    HonestOrderProvesIff(keccak, f, p);
  }

  // On a DCA round it fires exactly when the round can be proven for the present time, or in the
  // last second of the commitment, which the contract would still accept and the circuit refuses.
  lemma DcaFiresIff(keccak: Keccak, f: DcaFields, s: PendingStrategy, hasRegistry: bool, price: Option<nat>, now: nat)
    requires StoredDca(s, f)
    requires DcaInRange(f) && BelowModulus(f.size, f.minOut, f.nonce, f.userSecret) && f.expiry > 0 && now < TWO_64
    ensures Fires(s, hasRegistry, price, now)
      <==> DcaProvable(keccak, f, now) || (now == f.expiry && f.scheduledLo <= now <= f.scheduledHi)
    ensures DcaProvable(keccak, f, now) <==> Fires(s, hasRegistry, price, now) && now != f.expiry
  {
    hide DcaProvable;
    HonestDcaProvesIff(keccak, f, now);
  }

  // Whether the last second can be reached at all is decided by the committed window.
  lemma DcaAgreesIff(keccak: Keccak, f: DcaFields, s: PendingStrategy, hasRegistry: bool, price: Option<nat>)
    requires StoredDca(s, f) && DcaInRange(f) && BelowModulus(f.size, f.minOut, f.nonce, f.userSecret) && f.expiry > 0
    ensures (forall now: nat :: now < TWO_64 ==> (Fires(s, hasRegistry, price, now) <==> DcaProvable(keccak, f, now)))
      <==> f.scheduledHi < f.expiry || f.scheduledLo > f.expiry
  {
    hide DcaProvable, Fires;
    forall now: nat | now < TWO_64
      ensures Fires(s, hasRegistry, price, now)
        <==> DcaProvable(keccak, f, now) || (now == f.expiry && f.scheduledLo <= now <= f.scheduledHi)
      ensures DcaProvable(keccak, f, now) <==> Fires(s, hasRegistry, price, now) && now != f.expiry
    {
      DcaFiresIff(keccak, f, s, hasRegistry, price, now);
    }
    if f.scheduledLo <= f.expiry <= f.scheduledHi {
      assert Fires(s, hasRegistry, price, f.expiry) && !DcaProvable(keccak, f, f.expiry);
    }
  }

  // A round whose window ends with the commitment: at that second the monitor fires for nothing.
  lemma DcaFiresUnprovable(keccak: Keccak, s: PendingStrategy, hasRegistry: bool, price: Option<nat>)
    requires StoredDca(s, DcaFields(1, 2, 5, 0, 100, 200, 200, 7, 8))
    ensures var f := DcaFields(1, 2, 5, 0, 100, 200, 200, 7, 8);
      Fires(s, hasRegistry, price, 200) && !DcaProvable(keccak, f, 200)
  {
    var f := DcaFields(1, 2, 5, 0, 100, 200, 200, 7, 8);
    hide DcaProvable;
    DcaFiresIff(keccak, f, s, hasRegistry, price, 200);
  }

  // The schedule of the frontend: rounds an interval apart, each with some seconds around its
  // centre, and an expiry one interval after its window
  datatype Round = Round(scheduledLo: int, scheduledHi: int, expiry: int)

  function BuildRound(i: nat, interval: nat, jitter: nat, now: nat): Round {
    var center := now + (i + 1) * interval;
    Round(center - jitter, center + jitter, center + jitter + interval)
  }

  // On the rounds the frontend schedules, firing and provability agree at every second.
  lemma ScheduledRoundsAgree(keccak: Keccak, f: DcaFields, s: PendingStrategy, hasRegistry: bool, price: Option<nat>,
                             i: nat, interval: nat, jitter: nat, start: nat, now: nat)
    requires StoredDca(s, f)
    requires DcaInRange(f) && BelowModulus(f.size, f.minOut, f.nonce, f.userSecret) && interval > 0 && now < TWO_64
    requires Round(f.scheduledLo, f.scheduledHi, f.expiry) == BuildRound(i, interval, jitter, start)
    ensures Fires(s, hasRegistry, price, now) <==> DcaProvable(keccak, f, now)
  {
    assert f.scheduledHi < f.expiry;
    hide DcaProvable, Fires;
    DcaFiresIff(keccak, f, s, hasRegistry, price, now);
  }

  // A market order is committed at a limit no price can miss: it can be proven at any price the
  // contract returns, and fires at once unless it has expired.
  lemma MarketAlwaysProvable(keccak: Keccak, f: OrderFields, s: PendingStrategy, hasRegistry: bool, price: Option<nat>,
                             feedIn: Feed, feedOut: Feed, now: nat)
    requires s.kind == Monitor.Market && s.expiry == f.expiry
    requires OrderInRange(f) && BelowModulus(f.size, f.minOut, f.nonce, f.userSecret)
    requires f.price == if f.direction then 0 else UINT64_MAX
    requires ReadOraclePrice(feedIn, feedOut).Some?
    ensures OrderProvable(keccak, f, ReadOraclePrice(feedIn, feedOut).value)
    ensures Fires(s, hasRegistry, price, now) <==> f.expiry == 0 || now <= f.expiry
  {
    assert ReadOraclePrice(feedIn, feedOut).value <= UINT64_MAX;
    hide ReadOraclePrice, OrderProvable;
    HonestOrderProvesIff(keccak, f, ReadOraclePrice(feedIn, feedOut).value);
  }
}
