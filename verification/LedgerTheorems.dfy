// What holds of every run of the ledger.
module LedgerTheorems {
  import opened Wrappers
  import opened Sums
  import opened Price
  import opened Ledger
  import opened LedgerInvariant

  // A world the protocol can be in between two transactions
  ghost predicate Reachable(env: Env, w: World) {
    exists start, steps :: Genesis(start) && w == Run(env, start, steps)
  }

  lemma ReachableInv(env: Env, w: World)
    requires Reachable(env, w)
    ensures Inv(env, w) && !w.entered && !w.gasEntered
  {
    hide Inv, Run;
    var start, steps :| Genesis(start) && w == Run(env, start, steps);
    GenesisInv(env, start);
    RunKeeps(env, start, steps);
  }

  lemma {:induction false} RunSplit(env: Env, w: World, steps: seq<Step>, more: seq<Step>)
    ensures Run(env, w, steps + more) == Run(env, Run(env, w, steps), more)
    decreases |steps|
  {
    hide Perform;
    if steps == [] {
      assert steps + more == more;
    } else {
      assert (steps + more)[1..] == steps[1..] + more;
      RunSplit(env, Perform(env, w, steps[0]), steps[1..], more);
    }
  }

  lemma ReachableRun(env: Env, w: World, more: seq<Step>)
    requires Reachable(env, w)
    ensures Reachable(env, Run(env, w, more))
  {
    hide Run;
    var start, steps :| Genesis(start) && w == Run(env, start, steps);
    RunSplit(env, start, steps, more);
  }

  lemma ReachableAfter(env: Env, w: World, op: Op)
    requires Reachable(env, w)
    ensures Reachable(env, After(env, w, op))
  {
    hide Reachable, After;
    ReachableRun(env, w, [Transaction(op)]);
    assert Perform(env, w, Transaction(op)) == After(env, w, op);
  }

  // A world somebody outside can see: between transactions, or with control inside one
  ghost predicate Visible(env: Env, w: World) {
    || Reachable(env, w)
    || exists before, op :: Reachable(env, before) && w in CallPoints(env, before, op)
  }

  lemma VisibleInv(env: Env, w: World)
    requires Visible(env, w)
    ensures Inv(env, w)
  {
    hide Inv, CallPoints, Reachable;
    if Reachable(env, w) {
      ReachableInv(env, w);
    } else {
      var before, op :| Reachable(env, before) && w in CallPoints(env, before, op);
      ReachableInv(env, before);
      CallKeeps(env, before, op);
    }
  }

  // Wherever it is looked at from, the vault holds at least the free and the locked balances of
  // each token, what is locked is exactly the size of the pending commitments in their tokenIn,
  // and the gas vault holds at least all the gas balances.
  lemma Solvent(env: Env, w: World, t: Token, h: Hash)
    requires Visible(env, w)
    ensures TotalFor(w.freeBalance, t) + TotalFor(w.lockedBalance, t) <= Get(w.bank, (env.vault, t)) <= UINT256_MAX
    ensures Get(w.lockedBalance, (h, t))
      == if At(w, h).status == PENDING && t == At(w, h).tokenIn then At(w, h).size else 0
    ensures Total(w.balanceOf) <= Get(w.eth, env.gasVault)
  {
    hide SettledOn, TotalFor, Total, Visible;
    VisibleInv(env, w);
    assert Funded(env, w, t);
    assert Booked(env, w, h);
    EntryAtMostTotalFor(w.bank, (env.vault, t));
  }

  // Spent nullifiers and executed or cancelled commitments are in bijection.
  lemma NullifierBijection(env: Env, w: World)
    requires Visible(env, w)
    ensures forall h :: h in w.spends <==> At(w, h).status == EXECUTED || At(w, h).status == CANCELLED
    ensures forall h :: h in w.spends ==> w.spends[h] in w.nullifiers
    ensures forall n :: n in w.nullifiers ==> exists h :: h in w.spends && w.spends[h] == n
    ensures forall h, k :: h in w.spends && k in w.spends && w.spends[h] == w.spends[k] ==> h == k
  {
    hide SettledOn, Visible, Counted;
    VisibleInv(env, w);
    forall h ensures h in w.spends <==> At(w, h).status == EXECUTED || At(w, h).status == CANCELLED { assert Booked(env, w, h); }
    forall h | h in w.spends ensures w.spends[h] in w.nullifiers { assert Booked(env, w, h); }
    forall n | n in w.nullifiers ensures exists h :: h in w.spends && w.spends[h] == n {
      var h :| SpentBy(w, n, h);
    }
    forall h, k | h in w.spends && k in w.spends && w.spends[h] == w.spends[k] ensures h == k {
      assert SpentBy(w, w.spends[h], h) && SpentBy(w, w.spends[h], k);
    }
  }

  // The one event with which a commitment's collateral leaves its lock
  ghost predicate LeavesLock(e: Event, h: Hash) {
    e.hash == h && !e.CollateralLocked?
  }

  // Collateral is locked once and leaves the lock at most once: to the DEX adapter exactly when
  // the commitment was executed, back to its owner exactly when it was cancelled or expired.
  // However often a keeper triggers an execution, its collateral is released at most once.
  lemma CollateralMovesOnce(env: Env, w: World, h: Hash)
    requires Visible(env, w)
    ensures forall e, e' :: LeavesLock(e, h) && LeavesLock(e', h) && e in w.log && e' in w.log ==> e == e' && w.log[e] == 1
    ensures (exists e :: LeavesLock(e, h) && e in w.log) <==> At(w, h).status !in {NONE, PENDING}
    ensures w.log[CollateralLocked(h, At(w, h).tokenIn, At(w, h).size)] == if At(w, h).status == NONE then 0 else 1
    ensures w.log[CollateralReleased(h, At(w, h).tokenIn, At(w, h).size, env.dexAdapter)]
      == if At(w, h).status == EXECUTED then 1 else 0
    ensures w.log[CollateralReturned(h, At(w, h).owner, At(w, h).tokenIn, At(w, h).size)]
      == if At(w, h).status == CANCELLED || At(w, h).status == EXPIRED then 1 else 0
  {
    hide Visible, Booked;
    VisibleInv(env, w);
    var c := At(w, h);
    var released := CollateralReleased(h, c.tokenIn, c.size, env.dexAdapter);
    var returned := CollateralReturned(h, c.owner, c.tokenIn, c.size);
    assert Counted(env, w, CollateralLocked(h, c.tokenIn, c.size)) && Counted(env, w, released) && Counted(env, w, returned);
    assert LeavesLock(released, h) && LeavesLock(returned, h);
    forall e | LeavesLock(e, h) && e in w.log
      ensures w.log[e] == 1 && e == (if c.status == EXECUTED then released else returned) && c.status !in {NONE, PENDING}
    {
      assert Counted(env, w, e);
    }
    if c.status == EXECUTED { assert released in w.log; }
    if c.status == CANCELLED || c.status == EXPIRED { assert returned in w.log; }
  }

  // A final status is final: no later step changes anything in the commitment or in what it settled on.
  lemma FinalIsFinal(env: Env, w: World, steps: seq<Step>, h: Hash)
    requires Reachable(env, w) && At(w, h).status !in {NONE, PENDING}
    ensures At(Run(env, w, steps), h) == At(w, h)
    ensures h in w.settlements ==> h in Run(env, w, steps).settlements && Run(env, w, steps).settlements[h] == w.settlements[h]
  {
    hide Inv, Run;
    ReachableInv(env, w);
    RunKeeps(env, w, steps);
    assert Progress(At(w, h), At(Run(env, w, steps), h)) && Remembered(w, Run(env, w, steps), h);
  }

  // The vault is never in the way: when the registry's own checks pass, the collateral call does too.
  lemma CancelSucceedsIff(env: Env, w: World, sender: Address, h: Hash, nullifier: nat)
    requires Inv(env, w) && !w.entered
    ensures CancelCommitment(w, sender, h, nullifier).Some?
      <==> At(w, h).owner == sender && At(w, h).status == PENDING && nullifier !in w.nullifiers
  {
    hide SettledOn, TotalFor;
    var c := At(w, h);
    assert Booked(env, w, h);
    assert Get(w.lockedBalance, (h, c.tokenIn)) == Owed(c, c.tokenIn);
    assert Funded(env, w, c.tokenIn);
    EntryAtMostTotalFor(w.freeBalance, (c.owner, c.tokenIn));
    EntryAtMostTotalFor(w.lockedBalance, (h, c.tokenIn));
    EntryAtMostTotalFor(w.bank, (env.vault, c.tokenIn));
  }

  lemma ExecutionStartsIff(env: Env, w: World, h: Hash, nullifier: nat, proof: Proof, fillRef: nat)
    requires Inv(env, w) && !w.entered
    ensures StartExecution(env, w, h, nullifier, proof, fillRef).Some?
      <==> !w.paused && Accepted(env, w, h, nullifier, proof, fillRef).Some?
  {
    hide SettledOn, TotalFor, FillRef;
    var c := At(w, h);
    assert Booked(env, w, h);
    assert Get(w.lockedBalance, (h, c.tokenIn)) == Owed(c, c.tokenIn);
    assert Funded(env, w, c.tokenIn);
    EntryAtMostTotalFor(w.lockedBalance, (h, c.tokenIn));
  }

  lemma RegistrationSucceedsIff(env: Env, w: World, sender: Address, o: Order)
    requires Inv(env, w) && !w.entered
    ensures RegisterCommitment(env, w, sender, o).Some?
      <==> && !w.paused && o.tokenIn != 0 && o.tokenOut != 0 && o.tokenIn != o.tokenOut && o.kind in env.verifiers
           && o.hash != 0 && At(w, o.hash).status == NONE && o.expiry > w.now
           && 0 < o.size <= Get(w.freeBalance, (sender, o.tokenIn))
  {
    hide SettledOn, TotalFor;
    assert Booked(env, w, o.hash);
    assert Get(w.lockedBalance, (o.hash, o.tokenIn)) == Owed(At(w, o.hash), o.tokenIn);
    assert Funded(env, w, o.tokenIn);
    EntryAtMostTotalFor(w.freeBalance, (sender, o.tokenIn));
    EntryAtMostTotalFor(w.bank, (env.vault, o.tokenIn));
  }

  lemma DepositSucceedsIff(env: Env, w: World, user: Address, token: Token, amount: nat, approved: bool)
    requires Inv(env, w) && user !in env.Protocol()
    ensures DepositCollateral(env, w, user, token, amount, approved).Some?
      <==> amount > 0 && approved && Get(w.bank, (user, token)) >= amount
  {
    hide Books, TotalFor;
    assert Funded(env, w, token);
    EntryAtMostTotalFor(w.freeBalance, (user, token));
    if Get(w.bank, (user, token)) >= amount {
      TwoEntries(w.bank, (user, token), (env.vault, token));
    }
  }

  lemma TwoEntries<A, T>(m: map<(A, T), nat>, k: (A, T), l: (A, T))
    requires k != l && k.1 == l.1
    ensures Get(m, k) + Get(m, l) <= TotalFor(m, k.1)
  {
    hide TotalFor;
    TotalForSet(m, k, 0, k.1);
    EntryAtMostTotalFor(m[k := 0], l);
  }

  // Pausing leaves everything that gets a user's collateral out exactly as it was.

  function WithPause(w: Option<World>, value: bool): Option<World> {
    if w.Some? then Some(w.value.(paused := value)) else None
  }

  lemma PauseLeavesExit(env: Env, w: World, op: Op, value: bool)
    requires op.Cancel? || op.Sweep? || op.Withdraw?
    ensures Apply(env, w.(paused := value), op) == WithPause(Apply(env, w, op), value)
  {
    hide WithdrawCollateral, CancelCommitment, SweepFrom;
    match op
    case Sweep(_, hashes) => SweepUnderPause(w, hashes, value);
    case Cancel(sender, h, nullifier) => CancelUnderPause(w, sender, h, nullifier, value);
    case Withdraw(user, token, amount) => WithdrawUnderPause(env, w, user, token, amount, value);
  }

  lemma WithdrawUnderPause(env: Env, w: World, user: Address, token: Token, amount: nat, value: bool)
    ensures WithdrawCollateral(env, w.(paused := value), user, token, amount)
      == WithPause(WithdrawCollateral(env, w, user, token, amount), value)
  {
    hide Get, Moved;
  }

  lemma CancelUnderPause(w: World, sender: Address, h: Hash, nullifier: nat, value: bool)
    ensures CancelCommitment(w.(paused := value), sender, h, nullifier) == WithPause(CancelCommitment(w, sender, h, nullifier), value)
  {
    hide Get;
  }

  lemma {:induction false} SweepUnderPause(w: World, hashes: seq<Hash>, value: bool)
    ensures SweepFrom(w.(paused := value), hashes) == WithPause(SweepFrom(w, hashes), value)
    decreases |hashes|
  {
    if hashes != [] {
      ExpireUnderPause(w, hashes[0], value);
      hide Expire;
      assert Due(w.(paused := value), hashes[0]) <==> Due(w, hashes[0]);
      if !Due(w, hashes[0]) {
        SweepUnderPause(w, hashes[1..], value);
      } else if Expire(w, hashes[0]).Some? {
        SweepUnderPause(Expire(w, hashes[0]).value, hashes[1..], value);
      }
    }
  }

  lemma ExpireUnderPause(w: World, h: Hash, value: bool)
    ensures Expire(w.(paused := value), h) == WithPause(Expire(w, h), value)
  {
    hide Get;
  }

  // The whole of executeCommitment, whatever the swap and the keeper do with their control: it
  // succeeds exactly when it starts, the swap succeeds, and the reimbursement is not owed or can be
  // paid and is accepted. The gas vault never lacks the money.
  lemma ExecutionSucceedsIff(env: Env, w: World, op: Op)
    requires Inv(env, w) && op.Execute? && op.sender !in env.Protocol()
    ensures Apply(env, w, op).Some? <==>
      && StartExecution(env, w, op.hash, op.nullifier, op.proof, op.fillRef).Some? && op.swapSucceeds
      && (op.sender == At(w, op.hash).owner || Reimbursable(env, w, op))
  {
    ExecuteIs(env, w, op);
    PremiumIs(op.gasSpent);
    hide Apply, Inv, Grows, RunScript, StartExecution, DebitGas, Premium, Reimbursement;
    var started := StartExecution(env, w, op.hash, op.nullifier, op.proof, op.fillRef);
    if started.Some? {
      var v := started.value;
      StartExecutionKeeps(env, w, op.hash, op.nullifier, op.proof, op.fillRef);
      StartExecutionGuards(env, w, op.hash, op.nullifier, op.proof, op.fillRef);
      ScriptKeeps(env, v, op.swap);
      var swapped := RunScript(env, v, op.swap);
      StillExecuted(env, w, v, swapped, op.hash, op.nullifier, op.proof, op.fillRef);
      DebitSucceedsIff(env, swapped, op.hash, At(w, op.hash).owner, op.sender, op.gasSpent, op.script, op.accepts);
    }
  }

  lemma ExecuteIs(env: Env, w: World, op: Op)
    requires op.Execute? && op.sender !in env.Protocol()
    ensures Apply(env, w, op)
      == match StartExecution(env, w, op.hash, op.nullifier, op.proof, op.fillRef)
         case None => None
         case Some(v) =>
           var swapped := RunScript(env, v, op.swap);
           if !op.swapSucceeds then None
           else match DebitGas(env, swapped, op.hash, At(swapped, op.hash).owner, op.sender, op.gasSpent, op.script, op.accepts)
             case None => None
             case Some(paid) => Some(paid.(entered := false))
  {
    hide StartExecution, RunScript, DebitGas, At;
  }

  // 120% of the gas cost, rounded down
  function Premium(gasSpent: nat): nat {
    gasSpent * 120 / 100
  }

  lemma PremiumIs(gasSpent: nat)
    ensures Reimbursement(gasSpent) == if gasSpent * 12000 <= UINT256_MAX then Some(Premium(gasSpent)) else None
  {}

  // The keeper's 120% fit in a word, no payout is under way, the owner's prepaid balance covers
  // them after the swap, and the keeper takes them.
  ghost predicate Reimbursable(env: Env, w: World, op: Op)
    requires op.Execute? && StartExecution(env, w, op.hash, op.nullifier, op.proof, op.fillRef).Some?
  {
    var swapped := RunScript(env, StartExecution(env, w, op.hash, op.nullifier, op.proof, op.fillRef).value, op.swap);
    && op.gasSpent * 12000 <= UINT256_MAX && !w.gasEntered && op.accepts
    && Get(swapped.balanceOf, At(w, op.hash).owner) >= Premium(op.gasSpent)
  }

  lemma DebitSucceedsIff(env: Env, w: World, h: Hash, owner: Address, keeper: Address, gasSpent: nat, script: seq<Op>, accepts: bool)
    requires Inv(env, w)
    ensures DebitGas(env, w, h, owner, keeper, gasSpent, script, accepts).Some? <==>
      keeper == owner || (&& Reimbursement(gasSpent).Some? && !w.gasEntered && accepts
                          && Get(w.balanceOf, owner) >= Reimbursement(gasSpent).value)
  {
    hide Funds, Books, Total, Reimbursement, RunScript;
    EntryAtMostTotal(w.balanceOf, owner);
  }

  // A batch is its orders registered one by one, or nothing.

  function RegisterEach(env: Env, w: World, sender: Address, orders: seq<Order>): Option<World>
    decreases |orders|
  {
    if orders == [] then Some(w)
    else match RegisterCommitment(env, w, sender, orders[0])
      case None => None
      case Some(v) => RegisterEach(env, v, sender, orders[1..])
  }

  function OrdersFrom(b: Batch, i: nat): seq<Order>
    requires SameLengths(b) && i <= |b.hashes|
    decreases |b.hashes| - i
  {
    if i == |b.hashes| then [] else [OrderIn(b, i)] + OrdersFrom(b, i + 1)
  }

  lemma RegisterOne(env: Env, w: World, sender: Address, o: Order)
    requires !w.entered && !w.paused && SetUp(env, o)
    ensures RegisterCommitment(env, w, sender, o) == if Registrable(w, o) then StoreAndLock(w, sender, o) else None
  {
    hide StoreAndLock, Registrable;
  }

  lemma StoreKeepsFlags(w: World, sender: Address, o: Order)
    requires StoreAndLock(w, sender, o).Some?
    ensures StoreAndLock(w, sender, o).value.entered == w.entered && StoreAndLock(w, sender, o).value.paused == w.paused
  {
    hide Get;
  }

  lemma LoopFirst(w: World, sender: Address, b: Batch, i: nat)
    requires SameLengths(b) && i < |b.hashes|
    ensures RegisterFrom(w, sender, b, i)
      == if !Registrable(w, OrderIn(b, i)) then None
         else match StoreAndLock(w, sender, OrderIn(b, i))
           case None => None
           case Some(v) => RegisterFrom(v, sender, b, i + 1)
  {
    hide Registrable, StoreAndLock, OrderIn;
  }

  lemma EachFirst(env: Env, w: World, sender: Address, o: Order, rest: seq<Order>)
    ensures RegisterEach(env, w, sender, [o] + rest)
      == match RegisterCommitment(env, w, sender, o)
         case None => None
         case Some(v) => RegisterEach(env, v, sender, rest)
  {
    hide RegisterCommitment;
    assert ([o] + rest)[1..] == rest;
  }

  lemma {:induction false} BatchLoopIsEach(env: Env, w: World, sender: Address, b: Batch, i: nat)
    requires SameLengths(b) && i <= |b.hashes| && !w.entered && !w.paused
    requires b.tokenIn != 0 && b.tokenOut != 0 && b.tokenIn != b.tokenOut && b.kind in env.verifiers
    ensures RegisterFrom(w, sender, b, i) == RegisterEach(env, w, sender, OrdersFrom(b, i))
    decreases |b.hashes| - i
  {
    hide *;
    if i < |b.hashes| {
      var o := OrderIn(b, i);
      SetUpOf(env, b, i);
      RegisterOne(env, w, sender, o);
      EachFirst(env, w, sender, o, OrdersFrom(b, i + 1));
      LoopFirst(w, sender, b, i);
      var v := StoreAndLock(w, sender, o);
      if Registrable(w, o) && v.Some? {
        StoreKeepsFlags(w, sender, o);
        BatchLoopIsEach(env, v.value, sender, b, i + 1);
      }
    } else {
      LoopEnds(env, w, sender, b);
    }
  }

  lemma SetUpOf(env: Env, b: Batch, i: nat)
    requires SameLengths(b) && i < |b.hashes|
    ensures SetUp(env, OrderIn(b, i)) <==> b.tokenIn != 0 && b.tokenOut != 0 && b.tokenIn != b.tokenOut && b.kind in env.verifiers
    ensures OrdersFrom(b, i) == [OrderIn(b, i)] + OrdersFrom(b, i + 1)
  {}

  lemma LoopEnds(env: Env, w: World, sender: Address, b: Batch)
    requires SameLengths(b)
    ensures RegisterFrom(w, sender, b, |b.hashes|) == RegisterEach(env, w, sender, OrdersFrom(b, |b.hashes|)) == Some(w)
  {}

  lemma BatchRefinesSingles(env: Env, w: World, sender: Address, b: Batch)
    ensures RegisterCommitmentBatch(env, w, sender, b)
      == if 1 <= |b.hashes| <= 10 && |b.sizes| == |b.minOuts| == |b.expiries| == |b.hashes|
         then RegisterEach(env, w, sender, OrdersFrom(b, 0)) else None
  {
    if 1 <= |b.hashes| <= 10 && SameLengths(b) && !w.entered && !w.paused && SetUp(env, OrderIn(b, 0)) {
      BatchLoopIsEach(env, w, sender, b, 0);
    }
  }

  // Every pending commitment can be recovered by its owner, paused or not: once the expiry has
  // passed, sweeping and withdrawing succeed and the owner holds the full size more.

  lemma Recoverable(env: Env, w: World, h: Hash, time: nat, caller: Address)
    requires Reachable(env, w) && At(w, h).status == PENDING
    requires time >= w.now && time > At(w, h).expiry && caller !in env.Protocol()
    ensures var c := At(w, h);
      var late := Perform(env, w, Block(time));
      var sweep := Sweep(caller, [h]);
      var withdraw := Withdraw(c.owner, c.tokenIn, c.size);
      && Apply(env, late, sweep).Some?
      && Apply(env, After(env, late, sweep), withdraw).Some?
      && Get(After(env, After(env, late, sweep), withdraw).bank, (c.owner, c.tokenIn))
        == Get(w.bank, (c.owner, c.tokenIn)) + c.size
  {
    LateIsDue(env, w, h, time);
    hide Reachable, Inv, Apply, Perform, Due, Expire;
    var c := At(w, h);
    var late := Perform(env, w, Block(time));
    ReachableInv(env, w);
    assert [Block(time)][1..] == [] && Run(env, w, [Block(time)]) == late;
    RunKeeps(env, w, [Block(time)]);
    PendingRecord(env, w, h);
    SweepOne(env, late, h, caller);
    var swept := After(env, late, Sweep(caller, [h]));
    CallKeeps(env, late, Sweep(caller, [h]));
    WithdrawSucceedsIff(env, swept, c.owner, c.tokenIn, c.size);
  }

  lemma LateIsDue(env: Env, w: World, h: Hash, time: nat)
    requires At(w, h).status == PENDING && time >= w.now && time > At(w, h).expiry
    ensures var late := Perform(env, w, Block(time));
      Due(late, h) && At(late, h) == At(w, h) && late.bank == w.bank
  {
    hide After;
    assert Perform(env, w, Block(time)) == w.(now := time);
  }

  lemma PendingRecord(env: Env, w: World, h: Hash)
    requires Inv(env, w) && At(w, h).status == PENDING
    ensures At(w, h).size > 0 && At(w, h).owner !in env.Protocol()
  {
    assert Booked(env, w, h);
  }

  lemma SweepOne(env: Env, w: World, h: Hash, sender: Address)
    requires Inv(env, w) && Due(w, h) && !w.entered && sender !in env.Protocol()
    ensures Apply(env, w, Sweep(sender, [h])) == Expire(w, h) && Expire(w, h).Some?
    ensures Expire(w, h).value.bank == w.bank
    ensures Get(Expire(w, h).value.freeBalance, (At(w, h).owner, At(w, h).tokenIn)) >= At(w, h).size
  {
    ExpireSucceeds(env, w, h);
    hide Inv;
    assert SweepFrom(Expire(w, h).value, [h][1..]) == Expire(w, h);
  }

  // Withdrawing succeeds exactly when the free balance covers the amount; the tokens are there.
  lemma WithdrawSucceedsIff(env: Env, w: World, user: Address, token: Token, amount: nat)
    requires Inv(env, w) && user !in env.Protocol()
    ensures Apply(env, w, Withdraw(user, token, amount)).Some? <==> 0 < amount <= Get(w.freeBalance, (user, token))
    ensures Apply(env, w, Withdraw(user, token, amount)).Some? ==>
      Get(Apply(env, w, Withdraw(user, token, amount)).value.bank, (user, token)) == Get(w.bank, (user, token)) + amount
  {
    hide Books, TotalFor;
    assert Funded(env, w, token);
    EntryAtMostTotalFor(w.freeBalance, (user, token));
  }

  lemma ExpireSucceeds(env: Env, w: World, h: Hash)
    requires Inv(env, w) && Due(w, h)
    ensures Expire(w, h).Some?
  {
    hide SettledOn, TotalFor;
    var c := At(w, h);
    assert Booked(env, w, h);
    assert Get(w.lockedBalance, (h, c.tokenIn)) == Owed(c, c.tokenIn);
    assert Funded(env, w, c.tokenIn);
    EntryAtMostTotalFor(w.freeBalance, (c.owner, c.tokenIn));
    EntryAtMostTotalFor(w.lockedBalance, (h, c.tokenIn));
    EntryAtMostTotalFor(w.bank, (env.vault, c.tokenIn));
  }
}
