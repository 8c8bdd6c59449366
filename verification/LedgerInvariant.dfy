// What every call keeps, also at each point where it hands control to the outside.
module LedgerInvariant {
  import opened Wrappers
  import opened Sums
  import opened Price
  import opened Ledger

  // The vault holds at least what it owes, and a token's balances add up to its supply.
  ghost predicate Funded(env: Env, w: World, t: Token) {
    && TotalFor(w.freeBalance, t) + TotalFor(w.lockedBalance, t) <= Get(w.bank, (env.vault, t))
    && TotalFor(w.bank, t) == Get(w.supply, t) <= UINT256_MAX
  }

  ghost predicate Funds(env: Env, w: World) {
    forall t :: Funded(env, w, t)
  }

  ghost predicate GasFunds(env: Env, w: World) {
    Total(w.balanceOf) <= Get(w.eth, env.gasVault)
  }

  // What a commitment has under lock in a token
  function Owed(c: Record, t: Token): nat {
    if c.status == PENDING && t == c.tokenIn then c.size else 0
  }

  // How often an event about a commitment has happened
  function Occurrences(env: Env, c: Record, e: Event): nat {
    match e
    case CollateralLocked(_, t, a) =>
      if c.status != NONE && t == c.tokenIn && a == c.size then 1 else 0
    case CollateralReleased(_, t, a, to) =>
      if c.status == EXECUTED && t == c.tokenIn && a == c.size && to == env.dexAdapter then 1 else 0
    case CollateralReturned(_, user, t, a) =>
      if (c.status == CANCELLED || c.status == EXPIRED) && user == c.owner && t == c.tokenIn && a == c.size then 1 else 0
  }

  // The proof accepted for an executed commitment, and the reference value it was checked against
  ghost predicate SettledOn(env: Env, h: Hash, c: Record, s: Settlement) {
    && c.kind in env.verifiers
    && s.words == WordsFor(h, s.words.fillRef, s.words.nullifier, c)
    && env.verifiers[c.kind](s.proof, s.words)
    && s.time <= c.expiry
    && match c.kind {
      case ORDER_FILL => OraclePrice(s.feeds, c.tokenIn, c.tokenOut) == Some(s.words.fillRef)
      case DCA => s.words.fillRef <= s.time <= s.words.fillRef + DCA_FILL_REF_MAX_AGE
    }
  }

  // What registration made sure of
  ghost predicate WellFormed(env: Env, h: Hash, c: Record) {
    && h != 0 && c.size > 0 && c.owner !in env.Protocol() && c.kind in env.verifiers
    && c.tokenIn != 0 && c.tokenOut != 0 && c.tokenIn != c.tokenOut
  }

  ghost predicate Booked(env: Env, w: World, h: Hash) {
    var c := At(w, h);
    && (forall t :: Get(w.lockedBalance, (h, t)) == Owed(c, t))
    && (c.status != NONE ==> WellFormed(env, h, c))
    && (c.status == EXPIRED ==> w.now > c.expiry)
    && (h in w.spends <==> c.status == EXECUTED || c.status == CANCELLED)
    && (h in w.spends ==> w.spends[h] in w.nullifiers)
    && (h in w.settlements <==> c.status == EXECUTED)
    && (h in w.debits ==> c.status == EXECUTED && w.debits[h].user == c.owner)
    && (h in w.settlements ==> SettledOn(env, h, c, w.settlements[h]) && w.settlements[h].words.nullifier == w.spends[h])
  }

  ghost predicate Counted(env: Env, w: World, e: Event) {
    w.log[e] == Occurrences(env, At(w, e.hash), e)
  }

  ghost predicate SpentBy(w: World, n: nat, h: Hash) {
    h in w.spends && w.spends[h] == n
  }

  // Every spent nullifier was spent by exactly one commitment.
  ghost predicate Bijective(w: World) {
    && (forall n :: n in w.nullifiers ==> exists h :: SpentBy(w, n, h))
    && (forall n, h, k :: SpentBy(w, n, h) && SpentBy(w, n, k) ==> h == k)
  }

  ghost predicate Books(env: Env, w: World) {
    && (forall h :: Booked(env, w, h))
    && (forall e :: Counted(env, w, e))
    && Bijective(w)
  }

  ghost predicate Inv(env: Env, w: World) {
    Funds(env, w) && GasFunds(env, w) && Books(env, w)
  }

  // Funds

  lemma MovedTotals<A, T>(m: map<(A, T), nat>, from: (A, T), to: (A, T), amount: nat, t: T)
    requires Get(m, from) >= amount && from.1 == to.1
    ensures TotalFor(Moved(m, from, to, amount), t) == TotalFor(m, t)
  {
    hide TotalFor;
    var debited := m[from := Get(m, from) - amount];
    TotalForSet(m, from, Get(m, from) - amount, t);
    TotalForSet(debited, to, Get(debited, to) + amount, t);
  }

  lemma TransferFunds(env: Env, w: World, token: Token, from: Address, to: Address, amount: nat)
    requires Funds(env, w) && from != env.vault && TransferTokens(w, token, from, to, amount).Some?
    ensures Funds(env, TransferTokens(w, token, from, to, amount).value)
  {
    hide TotalFor;
    var v := TransferTokens(w, token, from, to, amount).value;
    forall t ensures Funded(env, v, t) {
      assert Funded(env, w, t);
      MovedTotals(w.bank, (from, token), (to, token), amount, t);
    }
  }

  lemma MintFunds(env: Env, w: World, token: Token, to: Address, amount: nat)
    requires Funds(env, w) && MintTokens(w, token, to, amount).Some?
    ensures Funds(env, MintTokens(w, token, to, amount).value)
  {
    hide TotalFor;
    var v := MintTokens(w, token, to, amount).value;
    forall t ensures Funded(env, v, t) {
      assert Funded(env, w, t);
      TotalForSet(w.bank, (to, token), Get(w.bank, (to, token)) + amount, t);
    }
  }

  lemma DepositFunds(env: Env, w: World, user: Address, token: Token, amount: nat, approved: bool)
    requires Funds(env, w) && user != env.vault && DepositCollateral(env, w, user, token, amount, approved).Some?
    ensures Funds(env, DepositCollateral(env, w, user, token, amount, approved).value)
  {
    hide TotalFor;
    var v := DepositCollateral(env, w, user, token, amount, approved).value;
    forall t ensures Funded(env, v, t) {
      assert Funded(env, w, t);
      MovedTotals(w.bank, (user, token), (env.vault, token), amount, t);
      TotalForSet(w.freeBalance, (user, token), Get(w.freeBalance, (user, token)) + amount, t);
    }
  }

  lemma WithdrawFunds(env: Env, w: World, user: Address, token: Token, amount: nat)
    requires Funds(env, w) && WithdrawCollateral(env, w, user, token, amount).Some?
    ensures Funds(env, WithdrawCollateral(env, w, user, token, amount).value)
  {
    hide TotalFor;
    var v := WithdrawCollateral(env, w, user, token, amount).value;
    forall t ensures Funded(env, v, t) {
      assert Funded(env, w, t);
      MovedTotals(w.bank, (env.vault, token), (user, token), amount, t);
      TotalForSet(w.freeBalance, (user, token), Get(w.freeBalance, (user, token)) - amount, t);
    }
  }

  lemma LockFunds(env: Env, w: World, h: Hash, user: Address, token: Token, amount: nat)
    requires Funds(env, w) && LockCollateral(w, h, user, token, amount).Some?
    ensures Funds(env, LockCollateral(w, h, user, token, amount).value)
  {
    hide TotalFor;
    var v := LockCollateral(w, h, user, token, amount).value;
    forall t ensures Funded(env, v, t) {
      assert Funded(env, w, t);
      TotalForSet(w.freeBalance, (user, token), Get(w.freeBalance, (user, token)) - amount, t);
      TotalForSet(w.lockedBalance, (h, token), Get(w.lockedBalance, (h, token)) + amount, t);
    }
  }

  lemma ReleaseFunds(env: Env, w: World, h: Hash, token: Token, amount: nat, to: Address)
    requires Funds(env, w) && ReleaseForExecution(env, w, h, token, amount, to).Some?
    ensures Funds(env, ReleaseForExecution(env, w, h, token, amount, to).value)
  {
    hide TotalFor;
    var v := ReleaseForExecution(env, w, h, token, amount, to).value;
    forall t ensures Funded(env, v, t) {
      assert Funded(env, w, t);
      TotalForSet(w.lockedBalance, (h, token), Get(w.lockedBalance, (h, token)) - amount, t);
      MovedTotals(w.bank, (env.vault, token), (to, token), amount, t);
    }
  }

  lemma ReturnFunds(env: Env, w: World, h: Hash, user: Address, token: Token, amount: nat)
    requires Funds(env, w) && ReturnCollateral(w, h, user, token, amount).Some?
    ensures Funds(env, ReturnCollateral(w, h, user, token, amount).value)
  {
    hide TotalFor;
    var v := ReturnCollateral(w, h, user, token, amount).value;
    forall t ensures Funded(env, v, t) {
      assert Funded(env, w, t);
      TotalForSet(w.freeBalance, (user, token), Get(w.freeBalance, (user, token)) + amount, t);
      TotalForSet(w.lockedBalance, (h, token), Get(w.lockedBalance, (h, token)) - amount, t);
    }
  }

  // Gas

  lemma DepositGasFunds(env: Env, w: World, user: Address, amount: nat)
    requires GasFunds(env, w) && user != env.gasVault && DepositGas(env, w, user, amount).Some?
    ensures GasFunds(env, DepositGas(env, w, user, amount).value)
  {
    hide Total;
    TotalSet(w.balanceOf, user, Get(w.balanceOf, user) + amount);
  }

  lemma PayOutFunds(env: Env, w: World, user: Address, to: Address, amount: nat)
    requires GasFunds(env, w) && PayOut(env, w, user, to, amount).Some?
    ensures GasFunds(env, PayOut(env, w, user, to, amount).value)
  {
    hide Total;
    TotalSet(w.balanceOf, user, Get(w.balanceOf, user) - amount);
  }

  // Books

  // Nothing is written about any commitment but h.
  ghost predicate Untouched(w: World, v: World, h: Hash, k: Hash) {
    k != h ==>
      && At(v, k) == At(w, k)
      && (forall t :: Get(v.lockedBalance, (k, t)) == Get(w.lockedBalance, (k, t)))
      && (k in v.spends <==> k in w.spends) && (k in w.spends ==> v.spends[k] == w.spends[k])
      && (k in v.debits <==> k in w.debits) && (k in w.debits ==> v.debits[k] == w.debits[k])
      && (k in v.settlements <==> k in w.settlements) && (k in w.settlements ==> v.settlements[k] == w.settlements[k])
  }

  ghost predicate UntouchedEvent(w: World, v: World, h: Hash, e: Event) {
    e.hash != h ==> v.log[e] == w.log[e]
  }

  lemma BooksStep(env: Env, w: World, v: World, h: Hash)
    requires Books(env, w) && v.now == w.now && w.nullifiers <= v.nullifiers && Bijective(v)
    requires forall k :: Untouched(w, v, h, k)
    requires forall e :: UntouchedEvent(w, v, h, e)
    requires Booked(env, v, h)
    requires forall e: Event :: e.hash == h ==> Counted(env, v, e)
    ensures Books(env, v)
  {
    hide SettledOn, Bijective, Occurrences;
    forall k ensures Booked(env, v, k) {
      assert Untouched(w, v, h, k);
      assert Booked(env, w, k);
    }
    forall e ensures Counted(env, v, e) {
      assert UntouchedEvent(w, v, h, e);
      assert Untouched(w, v, h, e.hash);
      assert Counted(env, w, e);
    }
  }

  lemma SpendKeepsBijective(env: Env, w: World, v: World, h: Hash, n: nat)
    requires Books(env, w) && n !in w.nullifiers && h !in w.spends
    requires v.spends == w.spends[h := n] && v.nullifiers == w.nullifiers + {n}
    ensures Bijective(v)
  {
    hide SettledOn, Occurrences;
    forall m | m in v.nullifiers ensures exists k :: SpentBy(v, m, k) {
      if m == n {
        assert SpentBy(v, m, h);
      } else {
        var k :| SpentBy(w, m, k);
        assert SpentBy(v, m, k);
      }
    }
    forall m, k, l | SpentBy(v, m, k) && SpentBy(v, m, l) ensures k == l {
      assert Booked(env, w, k) && Booked(env, w, l);
      assert k != h && l != h ==> SpentBy(w, m, k) && SpentBy(w, m, l);
    }
  }

  lemma RegisterBooks(env: Env, w: World, sender: Address, o: Order)
    requires Books(env, w) && Registrable(w, o) && SetUp(env, o) && sender !in env.Protocol() && StoreAndLock(w, sender, o).Some?
    ensures Books(env, StoreAndLock(w, sender, o).value)
  {
    hide SettledOn;
    var v, h := StoreAndLock(w, sender, o).value, o.hash;
    assert Booked(env, w, h);
    forall e: Event | e.hash == h ensures Counted(env, v, e) { assert Counted(env, w, e); }
    forall n, k ensures SpentBy(v, n, k) == SpentBy(w, n, k) {}
    BooksStep(env, w, v, h);
  }

  lemma MarkBooked(env: Env, w: World, v: World, h: Hash, nullifier: nat, proof: Proof, fillRef: nat)
    requires Booked(env, w, h) && StartExecution(env, w, h, nullifier, proof, fillRef) == Some(v)
    ensures Booked(env, v, h)
    ensures h !in w.spends && h !in w.settlements && nullifier !in w.nullifiers
  {
    hide OraclePrice;
  }

  lemma MarkCounted(env: Env, w: World, v: World, h: Hash, nullifier: nat, proof: Proof, fillRef: nat)
    requires StartExecution(env, w, h, nullifier, proof, fillRef) == Some(v)
    requires forall e: Event :: e.hash == h ==> Counted(env, w, e)
    ensures forall e: Event :: e.hash == h ==> Counted(env, v, e)
  {
    ExecutionEvent(env, w, v, h, nullifier, proof, fillRef);
    hide StartExecution;
    forall e: Event | e.hash == h ensures Counted(env, v, e) { assert Counted(env, w, e); }
  }

  lemma ExecutionEvent(env: Env, w: World, v: World, h: Hash, nullifier: nat, proof: Proof, fillRef: nat)
    requires StartExecution(env, w, h, nullifier, proof, fillRef) == Some(v)
    ensures At(w, h).status == PENDING && At(v, h) == At(w, h).(status := EXECUTED)
    ensures v.log == w.log + multiset{CollateralReleased(h, At(w, h).tokenIn, At(w, h).size, env.dexAdapter)}
  {
    hide FillRef;
  }

  lemma ExecutionTouches(env: Env, w: World, v: World, h: Hash, nullifier: nat, proof: Proof, fillRef: nat)
    requires StartExecution(env, w, h, nullifier, proof, fillRef) == Some(v)
    ensures forall k :: Untouched(w, v, h, k)
    ensures forall e :: UntouchedEvent(w, v, h, e)
    ensures v.spends == w.spends[h := nullifier] && v.nullifiers == w.nullifiers + {nullifier}
  {
    hide Accepted;
  }

  lemma ExecuteBooks(env: Env, w: World, h: Hash, nullifier: nat, proof: Proof, fillRef: nat)
    requires Books(env, w) && StartExecution(env, w, h, nullifier, proof, fillRef).Some?
    ensures Books(env, StartExecution(env, w, h, nullifier, proof, fillRef).value)
  {
    var v := StartExecution(env, w, h, nullifier, proof, fillRef).value;
    ExecutionTouches(env, w, v, h, nullifier, proof, fillRef);
    hide StartExecution, SettledOn, Booked, Counted, Bijective;
    assert Booked(env, w, h);
    MarkBooked(env, w, v, h, nullifier, proof, fillRef);
    MarkCounted(env, w, v, h, nullifier, proof, fillRef);
    SpendKeepsBijective(env, w, v, h, nullifier);
    BooksStep(env, w, v, h);
  }

  lemma CancelBooks(env: Env, w: World, sender: Address, h: Hash, nullifier: nat)
    requires Books(env, w) && CancelCommitment(w, sender, h, nullifier).Some?
    ensures Books(env, CancelCommitment(w, sender, h, nullifier).value)
  {
    hide SettledOn;
    var v := CancelCommitment(w, sender, h, nullifier).value;
    assert Booked(env, w, h);
    forall e: Event | e.hash == h ensures Counted(env, v, e) { assert Counted(env, w, e); }
    SpendKeepsBijective(env, w, v, h, nullifier);
    BooksStep(env, w, v, h);
  }

  lemma ExpireBooks(env: Env, w: World, h: Hash)
    requires Books(env, w) && Due(w, h) && Expire(w, h).Some?
    ensures Books(env, Expire(w, h).value)
  {
    hide SettledOn;
    var v := Expire(w, h).value;
    assert Booked(env, w, h);
    forall e: Event | e.hash == h ensures Counted(env, v, e) { assert Counted(env, w, e); }
    forall n, k ensures SpentBy(v, n, k) == SpentBy(w, n, k) {}
    BooksStep(env, w, v, h);
  }

  // One commitment and its lock, event count and nullifier at a time, so whole calls keep it all

  lemma StoreKeeps(env: Env, w: World, sender: Address, o: Order)
    requires Inv(env, w) && Registrable(w, o) && SetUp(env, o) && sender !in env.Protocol() && StoreAndLock(w, sender, o).Some?
    ensures Inv(env, StoreAndLock(w, sender, o).value)
    ensures Grows(w, StoreAndLock(w, sender, o).value)
  {
    RegisterBooks(env, w, sender, o);
    hide Books, Funded;
    var record := Record(sender, o.expiry, PENDING, o.kind, o.tokenIn, o.tokenOut, o.size, o.minOut);
    var stored := w.(commitments := w.commitments[o.hash := record]);
    assert Funds(env, stored) by { SameFunds(env, w, stored); }
    LockFunds(env, stored, o.hash, sender, o.tokenIn, o.size);
  }

  lemma SameFunds(env: Env, w: World, v: World)
    requires Funds(env, w)
    requires v.bank == w.bank && v.supply == w.supply && v.freeBalance == w.freeBalance && v.lockedBalance == w.lockedBalance
    ensures Funds(env, v)
  {
    forall t ensures Funded(env, v, t) { assert Funded(env, w, t); }
  }

  lemma ExpireKeeps(env: Env, w: World, h: Hash)
    requires Inv(env, w) && Due(w, h) && Expire(w, h).Some?
    ensures Inv(env, Expire(w, h).value)
    ensures Grows(w, Expire(w, h).value)
  {
    ExpireBooks(env, w, h);
    hide Books, Funded;
    var c := At(w, h);
    var marked := w.(commitments := w.commitments[h := c.(status := EXPIRED)]);
    assert Funds(env, marked) by { SameFunds(env, w, marked); }
    ReturnFunds(env, marked, h, c.owner, c.tokenIn, c.size);
  }

  lemma CancelKeeps(env: Env, w: World, sender: Address, h: Hash, nullifier: nat)
    requires Inv(env, w) && CancelCommitment(w, sender, h, nullifier).Some?
    ensures Inv(env, CancelCommitment(w, sender, h, nullifier).value)
    ensures Grows(w, CancelCommitment(w, sender, h, nullifier).value)
  {
    CancelBooks(env, w, sender, h, nullifier);
    assert Booked(env, w, h);
    hide Books, Booked, Funded;
    var c := At(w, h);
    var marked := w.(nullifiers := w.nullifiers + {nullifier},
                     commitments := w.commitments[h := c.(status := CANCELLED)],
                     spends := w.spends[h := nullifier]);
    assert Funds(env, marked) by { SameFunds(env, w, marked); }
    ReturnFunds(env, marked, h, sender, c.tokenIn, c.size);
  }

  lemma StartExecutionFunds(env: Env, w: World, h: Hash, nullifier: nat, proof: Proof, fillRef: nat)
    requires Funds(env, w) && StartExecution(env, w, h, nullifier, proof, fillRef).Some?
    ensures Funds(env, StartExecution(env, w, h, nullifier, proof, fillRef).value)
  {
    hide Funded, Accepted;
    var r := Accepted(env, w, h, nullifier, proof, fillRef).value;
    var c := At(w, h);
    var marked := MarkExecuted(w.(entered := true), h, nullifier, proof, r);
    assert Funds(env, marked) by { SameFunds(env, w, marked); }
    ReleaseFunds(env, marked, h, c.tokenIn, c.size, env.dexAdapter);
  }

  lemma StartExecutionGrows(env: Env, w: World, h: Hash, nullifier: nat, proof: Proof, fillRef: nat)
    requires Books(env, w) && StartExecution(env, w, h, nullifier, proof, fillRef).Some?
    ensures Grows(w, StartExecution(env, w, h, nullifier, proof, fillRef).value)
  {
    hide SettledOn, Counted, Bijective, FillRef;
    assert Booked(env, w, h);
  }

  lemma StartExecutionKeeps(env: Env, w: World, h: Hash, nullifier: nat, proof: Proof, fillRef: nat)
    requires Inv(env, w) && StartExecution(env, w, h, nullifier, proof, fillRef).Some?
    ensures Inv(env, StartExecution(env, w, h, nullifier, proof, fillRef).value)
    ensures Grows(w, StartExecution(env, w, h, nullifier, proof, fillRef).value)
  {
    ExecuteBooks(env, w, h, nullifier, proof, fillRef);
    StartExecutionFunds(env, w, h, nullifier, proof, fillRef);
    StartExecutionGrows(env, w, h, nullifier, proof, fillRef);
    hide Books, Funds, Grows, Accepted;
  }

  lemma PayOutKeeps(env: Env, w: World, user: Address, to: Address, amount: nat)
    requires Inv(env, w) && PayOut(env, w, user, to, amount).Some?
    ensures Inv(env, PayOut(env, w, user, to, amount).value)
    ensures Frozen(w, PayOut(env, w, user, to, amount).value)
  {
    var v := PayOut(env, w, user, to, amount).value;
    PayOutFunds(env, w, user, to, amount);
    SameFunds(env, w, v);
    SameBooks(env, w, v);
  }

  // A commitment is written once, stays what it is while pending and ends in one final status.
  ghost predicate Progress(c: Record, d: Record) {
    || c == d
    || (c.status == NONE && d.status != NONE)
    || (c.status == PENDING && d == c.(status := d.status) && d.status != NONE)
  }

  ghost predicate Grows(w: World, v: World) {
    && v.now == w.now && w.log <= v.log && w.nullifiers <= v.nullifiers
    && forall h :: Progress(At(w, h), At(v, h)) && Remembered(w, v, h) && SettledSince(w, v, h)
  }

  // What a commitment was settled on and which nullifier it spent stay on record.
  ghost predicate Remembered(w: World, v: World, h: Hash) {
    && (h in w.settlements ==> h in v.settlements && v.settlements[h] == w.settlements[h])
    && (h in w.spends ==> h in v.spends && v.spends[h] == w.spends[h])
  }

  // What was settled in between was settled in the block of both.
  ghost predicate SettledSince(w: World, v: World, h: Hash) {
    h in v.settlements && h !in w.settlements ==> v.settlements[h].time == w.now
  }

  // Nothing of the registry's and nothing under lock differs.
  ghost predicate Frozen(w: World, v: World) {
    && v.commitments == w.commitments && v.lockedBalance == w.lockedBalance && v.nullifiers == w.nullifiers
    && v.log == w.log && v.spends == w.spends && v.settlements == w.settlements
    && v.debits == w.debits && v.now == w.now
  }

  // How a whole call changes the world: the guards are as before, and behind a closed registry
  // guard nothing of the registry's moves.
  ghost predicate Evolves(w: World, v: World) {
    && v.entered == w.entered && v.gasEntered == w.gasEntered
    && Grows(w, v)
    && (w.entered ==> Frozen(w, v))
  }

  lemma GrowsTransitive(u: World, v: World, w: World)
    requires Grows(u, v) && Grows(v, w)
    ensures Grows(u, w)
  {
    forall h ensures Progress(At(u, h), At(w, h)) && Remembered(u, w, h) && SettledSince(u, w, h) {
      assert Progress(At(u, h), At(v, h)) && Progress(At(v, h), At(w, h)) && Remembered(u, v, h) && Remembered(v, w, h);
      assert SettledSince(u, v, h) && SettledSince(v, w, h);
    }
  }

  // The books are the same but for new records of what executions cost their owners, and time.
  ghost predicate SameRecords(w: World, v: World) {
    && v.now >= w.now && v.commitments == w.commitments && v.lockedBalance == w.lockedBalance && v.nullifiers == w.nullifiers
    && v.log == w.log && v.spends == w.spends && v.settlements == w.settlements
    && forall h :: h in v.debits ==>
      || (h in w.debits && v.debits[h] == w.debits[h])
      || (At(w, h).status == EXECUTED && v.debits[h].user == At(w, h).owner)
  }

  lemma SameBooks(env: Env, w: World, v: World)
    requires Books(env, w) && SameRecords(w, v)
    ensures Books(env, v)
  {
    hide SettledOn, Occurrences;
    forall h ensures Booked(env, v, h) { assert Booked(env, w, h); }
    forall e ensures Counted(env, v, e) { assert Counted(env, w, e); }
    forall n, h ensures SpentBy(v, n, h) == SpentBy(w, n, h) {}
    forall n | n in v.nullifiers ensures exists h :: SpentBy(v, n, h) {
      var h :| SpentBy(w, n, h);
      assert SpentBy(v, n, h);
    }
  }

  lemma {:induction false} RegisterFromKeeps(env: Env, w: World, sender: Address, b: Batch, i: nat)
    requires Inv(env, w) && sender !in env.Protocol() && SameLengths(b) && i <= |b.hashes|
    requires b.tokenIn != 0 && b.tokenOut != 0 && b.tokenIn != b.tokenOut && b.kind in env.verifiers
    requires RegisterFrom(w, sender, b, i).Some?
    ensures Inv(env, RegisterFrom(w, sender, b, i).value)
    ensures Grows(w, RegisterFrom(w, sender, b, i).value)
    ensures SameGuards(w, RegisterFrom(w, sender, b, i).value)
    decreases |b.hashes| - i
  {
    hide Inv, Grows, Registrable;
    if i < |b.hashes| {
      var v := StoreAndLock(w, sender, OrderIn(b, i)).value;
      StoreKeeps(env, w, sender, OrderIn(b, i));
      RegisterFromKeeps(env, v, sender, b, i + 1);
      GrowsTransitive(w, v, RegisterFrom(w, sender, b, i).value);
    } else {
      GrowsReflexive(w);
    }
  }

  ghost predicate SameGuards(w: World, v: World) {
    v.entered == w.entered && v.gasEntered == w.gasEntered
  }

  lemma GrowsReflexive(w: World)
    ensures Grows(w, w)
  {}

  lemma {:induction false} SweepFromKeeps(env: Env, w: World, hashes: seq<Hash>)
    requires Inv(env, w) && SweepFrom(w, hashes).Some?
    ensures Inv(env, SweepFrom(w, hashes).value)
    ensures Grows(w, SweepFrom(w, hashes).value)
    ensures SameGuards(w, SweepFrom(w, hashes).value)
    decreases |hashes|
  {
    hide Inv, Grows;
    if hashes == [] {
      GrowsReflexive(w);
    } else if !Due(w, hashes[0]) {
      SweepFromKeeps(env, w, hashes[1..]);
    } else {
      var v := Expire(w, hashes[0]).value;
      ExpireKeeps(env, w, hashes[0]);
      SweepFromKeeps(env, v, hashes[1..]);
      GrowsTransitive(w, v, SweepFrom(w, hashes).value);
    }
  }

  predicate CallsOut(op: Op) {
    op.GasWithdraw? || op.Execute?
  }

  predicate RegistryOp(op: Op) {
    op.Register? || op.RegisterBatch? || op.Cancel? || op.Sweep?
  }

  // Calls that never reach the registry's books
  lemma OutsideOpFrozen(env: Env, w: World, op: Op)
    requires !RegistryOp(op) && !CallsOut(op) && Apply(env, w, op).Some?
    ensures Frozen(w, Apply(env, w, op).value) && SameGuards(w, Apply(env, w, op).value)
  {
    hide Get, Moved;
  }

  lemma OutsideOpFunds(env: Env, w: World, op: Op)
    requires Funds(env, w) && !RegistryOp(op) && !CallsOut(op) && Apply(env, w, op).Some?
    ensures Funds(env, Apply(env, w, op).value)
  {
    hide Funded;
    var v := Apply(env, w, op).value;
    match op
    case Deposit(sender, token, amount, approved) => DepositFunds(env, w, sender, token, amount, approved);
    case Withdraw(sender, token, amount) => WithdrawFunds(env, w, sender, token, amount);
    case Transfer(sender, token, to, amount) => TransferFunds(env, w, token, sender, to, amount);
    case Mint(_, token, to, amount) => MintFunds(env, w, token, to, amount);
    case _ => SameFunds(env, w, v);
  }

  lemma OutsideOpGas(env: Env, w: World, op: Op)
    requires GasFunds(env, w) && !RegistryOp(op) && !CallsOut(op) && Apply(env, w, op).Some?
    ensures GasFunds(env, Apply(env, w, op).value)
  {
    hide Total;
    if op.GasDeposit? { DepositGasFunds(env, w, op.sender, op.amount); }
  }

  // Calls that stay inside the protocol
  lemma PlainOpKeeps(env: Env, w: World, op: Op)
    requires Inv(env, w) && !CallsOut(op) && Apply(env, w, op).Some?
    ensures Inv(env, Apply(env, w, op).value) && Evolves(w, Apply(env, w, op).value)
  {
    hide Grows;
    if RegistryOp(op) {
      hide Inv, Frozen, RegisterFrom, SweepFrom, Registrable;
      match op
      case Register(sender, order) => StoreKeeps(env, w, sender, order);
      case RegisterBatch(sender, batch) => RegisterFromKeeps(env, w, sender, batch, 0);
      case Cancel(sender, h, nullifier) => CancelKeeps(env, w, sender, h, nullifier);
      case Sweep(_, hashes) => SweepFromKeeps(env, w, hashes);
    } else {
      hide Apply, Funds, GasFunds, Books;
      OutsideOpFrozen(env, w, op);
      OutsideOpFunds(env, w, op);
      OutsideOpGas(env, w, op);
      SameBooks(env, w, Apply(env, w, op).value);
      FrozenGrows(w, Apply(env, w, op).value);
    }
  }

  lemma FrozenGrows(w: World, v: World)
    requires Frozen(w, v)
    ensures Grows(w, v)
  {}

  // The calls that hand control to the outside: whatever it does there, every state it can see
  // satisfies the invariant, and so does the state after the call.
  ghost predicate AllInv(env: Env, ws: seq<World>) {
    forall i :: 0 <= i < |ws| ==> Inv(env, ws[i])
  }

  lemma EvolvesTransitive(u: World, v: World, w: World)
    requires Evolves(u, v) && Evolves(v, w)
    ensures Evolves(u, w)
  {
    GrowsTransitive(u, v, w);
  }

  lemma {:induction false} ScriptKeeps(env: Env, w: World, ops: seq<Op>)
    requires Inv(env, w)
    ensures Inv(env, RunScript(env, w, ops)) && Evolves(w, RunScript(env, w, ops))
    ensures AllInv(env, ScriptPoints(env, w, ops))
    decreases ops, 0
  {
    hide Inv, Evolves, Apply, CallPoints;
    if ops == [] {
      EvolvesReflexive(w);
    } else {
      CallKeeps(env, w, ops[0]);
      var v := After(env, w, ops[0]);
      ScriptKeeps(env, v, ops[1..]);
      EvolvesTransitive(w, v, RunScript(env, v, ops[1..]));
    }
  }

  lemma EvolvesReflexive(w: World)
    ensures Evolves(w, w)
  {
    GrowsReflexive(w);
  }

  lemma {:induction false} CallKeeps(env: Env, w: World, op: Op)
    requires Inv(env, w)
    ensures Inv(env, After(env, w, op)) && Evolves(w, After(env, w, op))
    ensures AllInv(env, CallPoints(env, w, op))
    decreases op, 1
  {
    hide Inv, Evolves, Apply, CallPoints;
    EvolvesReflexive(w);
    if op.GasWithdraw? {
      if op.sender !in env.Protocol() && op.amount > 0 {
        PayKeeps(env, w, op.sender, op.sender, op.amount, op.script, op.accepts);
      }
      GasWithdrawIsPay(env, w, op);
    } else if op.Execute? {
      ExecuteKeeps(env, w, op);
    } else {
      NoCallPoints(env, w, op);
      if Apply(env, w, op).Some? { PlainOpKeeps(env, w, op); }
    }
  }

  lemma GasWithdrawIsPay(env: Env, w: World, op: Op)
    requires op.GasWithdraw?
    ensures Apply(env, w, op) == (if op.sender in env.Protocol() || op.amount == 0 then None
                                  else PayAndCall(env, w, op.sender, op.sender, op.amount, op.script, op.accepts))
    ensures CallPoints(env, w, op) == (if op.sender in env.Protocol() || op.amount == 0 then []
                                       else PayPoints(env, w, op.sender, op.sender, op.amount, op.script))
  {}

  lemma NoCallPoints(env: Env, w: World, op: Op)
    ensures !CallsOut(op) ==> CallPoints(env, w, op) == []
  {}

  lemma {:induction false} PayKeeps(env: Env, w: World, user: Address, to: Address, amount: nat, script: seq<Op>, accepts: bool)
    requires Inv(env, w)
    ensures PayAndCall(env, w, user, to, amount, script, accepts).Some? ==>
      Inv(env, PayAndCall(env, w, user, to, amount, script, accepts).value)
      && Evolves(w, PayAndCall(env, w, user, to, amount, script, accepts).value)
    ensures AllInv(env, PayPoints(env, w, user, to, amount, script))
    decreases script, 1
  {
    hide Inv, Evolves, RunScript, ScriptPoints, PayOut;
    var paid := PayOut(env, w, user, to, amount);
    if paid.Some? {
      var v := paid.value;
      PayOutKeeps(env, w, user, to, amount);
      PayOutGuards(env, w, user, to, amount);
      ScriptKeeps(env, v, script);
      var u := RunScript(env, v, script);
      SameInv(env, u, u.(gasEntered := false));
      Reopened(w, v, u);
    }
  }

  // A payout closes the gas guard, and reopening it afterwards changes nothing else.
  lemma Reopened(w: World, v: World, u: World)
    requires !w.gasEntered && v.gasEntered && v.entered == w.entered && Frozen(w, v) && Evolves(v, u)
    ensures Evolves(w, u.(gasEntered := false))
  {
    var done := u.(gasEntered := false);
    forall h ensures Progress(At(w, h), At(done, h)) && Remembered(w, done, h) && SettledSince(w, done, h) {
      assert Progress(At(v, h), At(u, h)) && Remembered(v, u, h) && SettledSince(v, u, h);
    }
  }

  lemma SameInv(env: Env, w: World, v: World)
    requires Inv(env, w)
    requires v == w.(entered := v.entered, gasEntered := v.gasEntered, now := v.now, debits := v.debits) && SameRecords(w, v)
    ensures Inv(env, v)
  {
    SameFunds(env, w, v);
    SameBooks(env, w, v);
  }

  // r is w but for what is recorded about gas.
  ghost predicate DebitedOnly(w: World, r: World) {
    r == w.(debits := r.debits)
  }

  // The reimbursement, from the record of it on
  lemma {:induction false} DebitKeeps(env: Env, w: World, h: Hash, keeper: Address, gasSpent: nat, script: seq<Op>, accepts: bool)
    returns (r: World)
    requires Inv(env, w) && At(w, h).status == EXECUTED
    ensures DebitedOnly(w, r)
    ensures var paid := DebitGas(env, w, h, At(w, h).owner, keeper, gasSpent, script, accepts);
      paid.Some? ==> Inv(env, paid.value) && Evolves(r, paid.value)
    ensures AllInv(env, DebitPoints(env, w, h, At(w, h).owner, keeper, gasSpent, script))
    decreases script, 2
  {
    hide Inv, Evolves, PayAndCall, PayPoints, Reimbursement;
    EvolvesReflexive(w);
    r := w;
    if keeper != At(w, h).owner && Reimbursement(gasSpent).Some? {
      var cost := Reimbursement(gasSpent).value;
      r := Recorded(w, h, At(w, h).owner, cost);
      SameInv(env, w, r);
      PayKeeps(env, r, At(w, h).owner, keeper, cost, script, accepts);
    }
  }

  lemma PayOutGuards(env: Env, w: World, user: Address, to: Address, amount: nat)
    requires PayOut(env, w, user, to, amount).Some?
    ensures !w.gasEntered && PayOut(env, w, user, to, amount).value.gasEntered
    ensures PayOut(env, w, user, to, amount).value.entered == w.entered
  {}

  lemma StartExecutionGuards(env: Env, w: World, h: Hash, nullifier: nat, proof: Proof, fillRef: nat)
    requires StartExecution(env, w, h, nullifier, proof, fillRef).Some?
    ensures !w.entered && StartExecution(env, w, h, nullifier, proof, fillRef).value.entered
    ensures StartExecution(env, w, h, nullifier, proof, fillRef).value.gasEntered == w.gasEntered
  {
    hide Accepted;
  }

  // From the marking to the end of an execution: u is what the swap left, r adds the record of the
  // reimbursement, done is what the reimbursement left.
  lemma ClosedAgain(w: World, v: World, u: World, r: World, done: World)
    requires !w.entered && v.entered && v.gasEntered == w.gasEntered && Grows(w, v)
    requires Evolves(v, u) && DebitedOnly(u, r) && Evolves(r, done)
    ensures Evolves(w, done.(entered := false))
  {
    GrowsTransitive(w, v, u);
    forall h ensures Progress(At(u, h), At(r, h)) && Remembered(u, r, h) && SettledSince(u, r, h) {}
    GrowsTransitive(w, u, r);
    GrowsTransitive(w, r, done);
    var end := done.(entered := false);
    forall h ensures Progress(At(w, h), At(end, h)) && Remembered(w, end, h) && SettledSince(w, end, h) {
      assert Progress(At(w, h), At(done, h)) && Remembered(w, done, h) && SettledSince(w, done, h);
    }
  }

  lemma StillExecuted(env: Env, w: World, v: World, u: World, h: Hash, nullifier: nat, proof: Proof, fillRef: nat)
    requires StartExecution(env, w, h, nullifier, proof, fillRef) == Some(v) && Evolves(v, u)
    ensures At(u, h) == At(w, h).(status := EXECUTED)
  {
    ExecutionEvent(env, w, v, h, nullifier, proof, fillRef);
    StartExecutionGuards(env, w, h, nullifier, proof, fillRef);
    hide StartExecution;
  }

  lemma {:induction false} ExecuteKeeps(env: Env, w: World, op: Op)
    requires Inv(env, w) && op.Execute?
    ensures Inv(env, After(env, w, op)) && Evolves(w, After(env, w, op))
    ensures AllInv(env, CallPoints(env, w, op))
    decreases op, 0
  {
    hide Inv, Evolves, RunScript, ScriptPoints, StartExecution, DebitGas, DebitPoints;
    EvolvesReflexive(w);
    if op.sender !in env.Protocol() {
      var started := StartExecution(env, w, op.hash, op.nullifier, op.proof, op.fillRef);
      if started.Some? {
        var v := started.value;
        StartExecutionKeeps(env, w, op.hash, op.nullifier, op.proof, op.fillRef);
        StartExecutionGuards(env, w, op.hash, op.nullifier, op.proof, op.fillRef);
        ScriptKeeps(env, v, op.swap);
        var u := RunScript(env, v, op.swap);
        if op.swapSucceeds {
          StillExecuted(env, w, v, u, op.hash, op.nullifier, op.proof, op.fillRef);
          var r := DebitKeeps(env, u, op.hash, op.sender, op.gasSpent, op.script, op.accepts);
          var paid := DebitGas(env, u, op.hash, At(u, op.hash).owner, op.sender, op.gasSpent, op.script, op.accepts);
          if paid.Some? {
            SameInv(env, paid.value, paid.value.(entered := false));
            ClosedAgain(w, v, u, r, paid.value);
          }
        }
      }
    }
  }

  lemma GenesisInv(env: Env, w: World)
    requires Genesis(w)
    ensures Inv(env, w)
  {
    forall t ensures Funded(env, w, t) {
      assert KeysFor(w.freeBalance, t) == {} && KeysFor(w.lockedBalance, t) == {};
      assert TotalFor(w.bank, t) == Get(w.supply, t) <= UINT256_MAX;
    }
    forall h ensures Booked(env, w, h) {}
    forall e ensures Counted(env, w, e) {}
  }

  // Every run, and every point inside it where the outside has control

  lemma {:induction false} RunKeeps(env: Env, w: World, steps: seq<Step>)
    requires Inv(env, w)
    ensures Inv(env, Run(env, w, steps))
    ensures SameGuards(w, Run(env, w, steps))
    ensures forall h :: Progress(At(w, h), At(Run(env, w, steps), h)) && Remembered(w, Run(env, w, steps), h)
    decreases |steps|
  {
    hide Inv, Grows, After, CallPoints, Frozen;
    if steps != [] {
      var v := Perform(env, w, steps[0]);
      match steps[0] {
        case Transaction(op) => CallKeeps(env, w, op);
        case Block(time) => SameInv(env, w, w.(now := if time >= w.now then time else w.now));
      }
      hide SameRecords, Progress, Remembered, At;
      RunKeeps(env, v, steps[1..]);
      FromBefore(w, v, Run(env, v, steps[1..]), steps[0]);
    }
  }

  lemma FromBefore(u: World, v: World, w: World, step: Step)
    requires if step.Transaction? then Grows(u, v) else v == u.(now := v.now)
    requires forall h :: Progress(At(v, h), At(w, h)) && Remembered(v, w, h)
    ensures forall h :: Progress(At(u, h), At(w, h)) && Remembered(u, w, h)
  {
    forall h ensures Progress(At(u, h), At(w, h)) && Remembered(u, w, h) {
      assert Progress(At(u, h), At(v, h)) && Progress(At(v, h), At(w, h)) && Remembered(u, v, h) && Remembered(v, w, h);
    }
  }
}
