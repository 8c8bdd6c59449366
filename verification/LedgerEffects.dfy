// What each call changes: who is paid what, what is stored, what expires.
module LedgerEffects {
  import opened Wrappers
  import opened Sums
  import opened Price
  import opened Ledger
  import opened LedgerInvariant
  import opened LedgerTheorems

  // From m to n an amount went from one key to another, and every other entry is as it was.
  ghost predicate Transferred<K(!new)>(m: map<K, nat>, n: map<K, nat>, from: K, to: K, amount: nat) {
    forall k :: Get(n, k) + (if k == from then amount else 0) == Get(m, k) + (if k == to then amount else 0)
  }

  // From m to n one entry changed by an amount.

  ghost predicate Credited<K(!new)>(m: map<K, nat>, n: map<K, nat>, to: K, amount: nat) {
    forall k :: Get(n, k) == Get(m, k) + (if k == to then amount else 0)
  }

  ghost predicate Debited<K(!new)>(m: map<K, nat>, n: map<K, nat>, from: K, amount: nat) {
    Credited(n, m, from, amount)
  }

  // Registration

  // The record holds what was registered.
  ghost predicate Holds(c: Record, owner: Address, expiry: nat, kind: Kind, tokenIn: Token, tokenOut: Token, size: nat, minOut: nat) {
    && c.status == PENDING && c.owner == owner && c.expiry == expiry && c.kind == kind
    && c.tokenIn == tokenIn && c.tokenOut == tokenOut && c.size == size && c.minOut == minOut
  }

  lemma RegistrationStores(env: Env, w: World, sender: Address, o: Order)
    requires Apply(env, w, Register(sender, o)).Some?
    ensures var v := Apply(env, w, Register(sender, o)).value;
      && At(w, o.hash).status == NONE
      && Holds(At(v, o.hash), sender, o.expiry, o.kind, o.tokenIn, o.tokenOut, o.size, o.minOut)
      && Debited(w.freeBalance, v.freeBalance, (sender, o.tokenIn), o.size)
      && Credited(w.lockedBalance, v.lockedBalance, (o.hash, o.tokenIn), o.size)
      && forall h :: h != o.hash ==> At(v, h) == At(w, h)
  {}

  lemma StoreStores(w: World, sender: Address, o: Order)
    requires StoreAndLock(w, sender, o).Some?
    ensures var v := StoreAndLock(w, sender, o).value;
      && Holds(At(v, o.hash), sender, o.expiry, o.kind, o.tokenIn, o.tokenOut, o.size, o.minOut)
      && forall h :: h != o.hash ==> At(v, h) == At(w, h)
  {}

  ghost predicate HoldsItem(v: World, sender: Address, b: Batch, i: nat)
    requires SameLengths(b) && i < |b.hashes|
  {
    Holds(At(v, b.hashes[i]), sender, b.expiries[i], b.kind, b.tokenIn, b.tokenOut, b.sizes[i], b.minOuts[i])
  }

  lemma {:induction false} LoopStores(w: World, sender: Address, b: Batch, i: nat)
    requires SameLengths(b) && i <= |b.hashes| && RegisterFrom(w, sender, b, i).Some?
    ensures forall j :: i <= j < |b.hashes| ==>
      At(w, b.hashes[j]).status == NONE && HoldsItem(RegisterFrom(w, sender, b, i).value, sender, b, j)
    ensures forall j, k :: i <= j < k < |b.hashes| ==> b.hashes[j] != b.hashes[k]
    ensures forall h :: h !in b.hashes[i..] ==> At(RegisterFrom(w, sender, b, i).value, h) == At(w, h)
    decreases |b.hashes| - i
  {
    hide StoreAndLock, Holds, At;
    if i < |b.hashes| {
      var v := StoreAndLock(w, sender, OrderIn(b, i)).value;
      StoreStores(w, sender, OrderIn(b, i));
      LoopStores(v, sender, b, i + 1);
      assert b.hashes[i..] == [b.hashes[i]] + b.hashes[i + 1..];
      assert b.hashes[i] !in b.hashes[i + 1..];
      forall j | i <= j < |b.hashes|
        ensures At(w, b.hashes[j]).status == NONE && HoldsItem(RegisterFrom(v, sender, b, i + 1).value, sender, b, j)
      {
        if j > i { assert b.hashes[j] in b.hashes[i + 1..] && b.hashes[j] != b.hashes[i]; }
      }
    }
  }

  // A batch that succeeds stores each of its items, all of them new, and nothing else.
  lemma BatchStores(env: Env, w: World, sender: Address, b: Batch)
    requires Apply(env, w, RegisterBatch(sender, b)).Some?
    ensures var v := Apply(env, w, RegisterBatch(sender, b)).value;
      && 1 <= |b.hashes| <= 10 && SameLengths(b)
      && (forall i :: 0 <= i < |b.hashes| ==> At(w, b.hashes[i]).status == NONE && HoldsItem(v, sender, b, i))
      && (forall i, j :: 0 <= i < j < |b.hashes| ==> b.hashes[i] != b.hashes[j])
      && forall h :: h !in b.hashes ==> At(v, h) == At(w, h)
  {
    hide RegisterFrom, HoldsItem;
    LoopStores(w, sender, b, 0);
    assert b.hashes[0..] == b.hashes;
  }

  // Sweeping

  lemma ExpireRecords(w: World, h: Hash)
    requires Expire(w, h).Some?
    ensures var v := Expire(w, h).value;
      && v.now == w.now && At(v, h) == At(w, h).(status := EXPIRED)
      && forall k :: k != h ==> Kept(w, v, k)
  {}

  // The record and the locks of h are as they were.
  ghost predicate Kept(w: World, v: World, h: Hash) {
    At(v, h) == At(w, h) && forall t :: Get(v.lockedBalance, (h, t)) == Get(w.lockedBalance, (h, t))
  }

  // Listed, pending and past its expiry
  ghost predicate Overdue(w: World, hashes: seq<Hash>, h: Hash) {
    h in hashes && At(w, h).status == PENDING && w.now > At(w, h).expiry
  }

  lemma {:induction false} LoopExpires(w: World, hashes: seq<Hash>, h: Hash)
    requires SweepFrom(w, hashes).Some?
    ensures var v := SweepFrom(w, hashes).value;
      if Overdue(w, hashes, h) then At(v, h) == At(w, h).(status := EXPIRED) else Kept(w, v, h)
    decreases |hashes|
  {
    hide Expire, At, Get;
    if hashes != [] {
      var k, rest := hashes[0], hashes[1..];
      assert h in hashes <==> h == k || h in rest;
      if Due(w, k) {
        ExpireRecords(w, k);
        var v := Expire(w, k).value;
        LoopExpires(v, rest, h);
        if h != k {
          assert Kept(w, v, h);
          assert Overdue(v, rest, h) <==> Overdue(w, hashes, h);
        }
      } else {
        LoopExpires(w, rest, h);
      }
    }
  }

  // A sweep expires exactly the listed commitments that are pending and past their expiry, and
  // touches no other record or lock.
  lemma SweepExpiresIff(env: Env, w: World, sender: Address, hashes: seq<Hash>, h: Hash)
    requires Apply(env, w, Sweep(sender, hashes)).Some?
    ensures var v := Apply(env, w, Sweep(sender, hashes)).value;
      && (At(v, h).status == EXPIRED <==>
            At(w, h).status == EXPIRED || (h in hashes && At(w, h).status == PENDING && w.now > At(w, h).expiry))
      && (if h in hashes && At(w, h).status == PENDING && w.now > At(w, h).expiry
          then At(v, h) == At(w, h).(status := EXPIRED) else Kept(w, v, h))
  {
    hide SweepFrom;
    LoopExpires(w, hashes, h);
  }

  // Wherever it is looked at from, an expired commitment is past its expiry, and one that was
  // executed was so no later than its expiry.
  lemma ExpiredIsLate(env: Env, w: World, h: Hash)
    requires Visible(env, w)
    ensures At(w, h).status == EXPIRED ==> w.now > At(w, h).expiry
    ensures h in w.settlements ==> w.settlements[h].time <= At(w, h).expiry
  {
    hide Visible, Counted, Bijective, Funds, GasFunds;
    VisibleInv(env, w);
    assert Booked(env, w, h);
  }

  // Tokens and ETH that leave during a call

  // At the swap, the first time in an execution that anybody outside has control, the adapter has
  // the committed size of the committed token, out of the vault.
  lemma SwapIsFunded(env: Env, w: World, op: Op)
    requires op.Execute? && CallPoints(env, w, op) != []
    ensures var v, c := CallPoints(env, w, op)[0], At(w, op.hash);
      && Transferred(w.bank, v.bank, (env.vault, c.tokenIn), (env.dexAdapter, c.tokenIn), c.size)
      && Debited(w.lockedBalance, v.lockedBalance, (op.hash, c.tokenIn), c.size)
      && v.eth == w.eth && v.balanceOf == w.balanceOf && v.freeBalance == w.freeBalance
  {
    hide StartExecution, RunScript, DebitPoints;
    var started := StartExecution(env, w, op.hash, op.nullifier, op.proof, op.fillRef).value;
    StartMoves(env, w, op.hash, op.nullifier, op.proof, op.fillRef);
    assert ScriptPoints(env, started, op.swap)[0] == started;
  }

  lemma ReleaseMoves(env: Env, w: World, h: Hash, token: Token, amount: nat, to: Address)
    requires ReleaseForExecution(env, w, h, token, amount, to).Some?
    ensures var v := ReleaseForExecution(env, w, h, token, amount, to).value;
      && Transferred(w.bank, v.bank, (env.vault, token), (to, token), amount)
      && Debited(w.lockedBalance, v.lockedBalance, (h, token), amount)
      && v.eth == w.eth && v.balanceOf == w.balanceOf && v.freeBalance == w.freeBalance
  {}

  lemma StartMoves(env: Env, w: World, h: Hash, nullifier: nat, proof: Proof, fillRef: nat)
    requires StartExecution(env, w, h, nullifier, proof, fillRef).Some?
    ensures var v, c := StartExecution(env, w, h, nullifier, proof, fillRef).value, At(w, h);
      && Transferred(w.bank, v.bank, (env.vault, c.tokenIn), (env.dexAdapter, c.tokenIn), c.size)
      && Debited(w.lockedBalance, v.lockedBalance, (h, c.tokenIn), c.size)
      && v.eth == w.eth && v.balanceOf == w.balanceOf && v.freeBalance == w.freeBalance
  {
    hide Accepted, ReleaseForExecution, Transferred, Debited;
    var c := At(w, h);
    var marked := MarkExecuted(w.(entered := true), h, nullifier, proof, Accepted(env, w, h, nullifier, proof, fillRef).value);
    ReleaseMoves(env, marked, h, c.tokenIn, c.size, env.dexAdapter);
  }

  lemma PayOutMoves(env: Env, w: World, user: Address, to: Address, amount: nat)
    requires PayOut(env, w, user, to, amount).Some?
    ensures var v := PayOut(env, w, user, to, amount).value;
      && Transferred(w.eth, v.eth, env.gasVault, to, amount) && Debited(w.balanceOf, v.balanceOf, user, amount)
      && v.bank == w.bank
  {}

  // The first world of a payment that the recipient sees
  lemma PayPointsMove(env: Env, w: World, user: Address, to: Address, amount: nat, script: seq<Op>, accepts: bool)
    requires PayPoints(env, w, user, to, amount, script) != []
    ensures var v := PayPoints(env, w, user, to, amount, script)[0];
      && Transferred(w.eth, v.eth, env.gasVault, to, amount) && Debited(w.balanceOf, v.balanceOf, user, amount)
      && v.bank == w.bank
      && (script == [] && accepts ==>
            && PayAndCall(env, w, user, to, amount, script, accepts).Some?
            && PayAndCall(env, w, user, to, amount, script, accepts).value.eth == v.eth)
  {
    PayOutMoves(env, w, user, to, amount);
    hide PayOut, Transferred, Debited;
    assert ScriptPoints(env, PayOut(env, w, user, to, amount).value, script)[0] == PayOut(env, w, user, to, amount).value;
  }

  // The world after the swap
  function Swapped(env: Env, w: World, op: Op): World
    requires op.Execute? && StartExecution(env, w, op.hash, op.nullifier, op.proof, op.fillRef).Some?
  {
    RunScript(env, StartExecution(env, w, op.hash, op.nullifier, op.proof, op.fillRef).value, op.swap)
  }

  // When the keeper first has control in an execution of somebody else's commitment, the premium
  // has gone from the gas vault to the keeper, out of the owner's prepaid balance, whatever the
  // swap did. With nothing else going on that is all that happens to anybody's ETH.
  lemma ExecutionPaysKeeper(env: Env, w: World, op: Op) returns (k: nat)
    requires Inv(env, w) && op.Execute? && Apply(env, w, op).Some? && op.sender != At(w, op.hash).owner
    ensures StartExecution(env, w, op.hash, op.nullifier, op.proof, op.fillRef).Some?
    ensures k == |ScriptPoints(env, StartExecution(env, w, op.hash, op.nullifier, op.proof, op.fillRef).value, op.swap)|
    ensures k < |CallPoints(env, w, op)|
    ensures var u, v, owner := Swapped(env, w, op), CallPoints(env, w, op)[k], At(w, op.hash).owner;
      && Transferred(u.eth, v.eth, env.gasVault, op.sender, Premium(op.gasSpent))
      && Debited(u.balanceOf, v.balanceOf, owner, Premium(op.gasSpent)) && v.bank == u.bank
    ensures op.swap == [] && op.script == [] ==>
      Transferred(w.eth, Apply(env, w, op).value.eth, env.gasVault, op.sender, Premium(op.gasSpent))
  {
    hide Inv, Grows, StartExecution, PayAndCall, PayPoints, Premium, Reimbursement, Transferred, Debited;
    var started := StartExecution(env, w, op.hash, op.nullifier, op.proof, op.fillRef).value;
    StartMoves(env, w, op.hash, op.nullifier, op.proof, op.fillRef);
    StartExecutionKeeps(env, w, op.hash, op.nullifier, op.proof, op.fillRef);
    StartExecutionGuards(env, w, op.hash, op.nullifier, op.proof, op.fillRef);
    ScriptKeeps(env, started, op.swap);
    var u, owner := RunScript(env, started, op.swap), At(w, op.hash).owner;
    StillExecuted(env, w, started, u, op.hash, op.nullifier, op.proof, op.fillRef);
    k := |ScriptPoints(env, started, op.swap)|;
    DebitPays(env, u, op.hash, owner, op.sender, op.gasSpent, op.script, op.accepts);
  }

  lemma DebitPays(env: Env, w: World, h: Hash, owner: Address, keeper: Address, gasSpent: nat, script: seq<Op>, accepts: bool)
    requires keeper != owner && DebitGas(env, w, h, owner, keeper, gasSpent, script, accepts).Some?
    ensures DebitPoints(env, w, h, owner, keeper, gasSpent, script) != []
    ensures var v := DebitPoints(env, w, h, owner, keeper, gasSpent, script)[0];
      && Transferred(w.eth, v.eth, env.gasVault, keeper, Premium(gasSpent))
      && Debited(w.balanceOf, v.balanceOf, owner, Premium(gasSpent)) && v.bank == w.bank
      && (script == [] ==> DebitGas(env, w, h, owner, keeper, gasSpent, script, accepts).value.eth == v.eth)
  {
    PremiumIs(gasSpent);
    hide Premium, Reimbursement, PayOut, Transferred, Debited;
    var cost := Reimbursement(gasSpent).value;
    PaidHasPoints(env, Recorded(w, h, owner, cost), owner, keeper, cost, script, accepts);
    PayPointsMove(env, Recorded(w, h, owner, cost), owner, keeper, cost, script, accepts);
  }

  lemma PaidHasPoints(env: Env, w: World, user: Address, to: Address, amount: nat, script: seq<Op>, accepts: bool)
    requires PayAndCall(env, w, user, to, amount, script, accepts).Some?
    ensures accepts && PayPoints(env, w, user, to, amount, script) != []
  {
    hide PayOut;
  }

  // Whoever executes an own commitment is neither charged nor paid.
  lemma OwnExecutionIsFree(env: Env, w: World, op: Op)
    requires Inv(env, w) && op.Execute? && Apply(env, w, op).Some? && op.sender == At(w, op.hash).owner
    ensures StartExecution(env, w, op.hash, op.nullifier, op.proof, op.fillRef).Some?
    ensures var u, v := Swapped(env, w, op), Apply(env, w, op).value; v.eth == u.eth && v.balanceOf == u.balanceOf
  {
    hide Inv, Grows, StartExecution, PayAndCall;
    var started := StartExecution(env, w, op.hash, op.nullifier, op.proof, op.fillRef).value;
    StartExecutionKeeps(env, w, op.hash, op.nullifier, op.proof, op.fillRef);
    StartExecutionGuards(env, w, op.hash, op.nullifier, op.proof, op.fillRef);
    ScriptKeeps(env, started, op.swap);
    StillExecuted(env, w, started, Swapped(env, w, op), op.hash, op.nullifier, op.proof, op.fillRef);
  }

  // The same for a withdrawal of gas.
  lemma WithdrawalPaysSender(env: Env, w: World, op: Op)
    requires op.GasWithdraw? && CallPoints(env, w, op) != []
    ensures var v := CallPoints(env, w, op)[0];
      && Transferred(w.eth, v.eth, env.gasVault, op.sender, op.amount) && Debited(w.balanceOf, v.balanceOf, op.sender, op.amount)
      && v.bank == w.bank
    ensures op.script == [] && op.accepts ==>
      Apply(env, w, op).Some? && Apply(env, w, op).value.eth == CallPoints(env, w, op)[0].eth
  {
    hide PayPoints, PayAndCall, Transferred, Debited;
    GasWithdrawIsPay(env, w, op);
    PayPointsMove(env, w, op.sender, op.sender, op.amount, op.script, op.accepts);
  }

  // It succeeds exactly when no payout is under way, the balance covers it and the sender takes it.
  lemma GasWithdrawalSucceedsIff(env: Env, w: World, op: Op)
    requires Inv(env, w) && op.GasWithdraw? && op.sender !in env.Protocol()
    ensures Apply(env, w, op).Some?
      <==> 0 < op.amount <= Get(w.balanceOf, op.sender) && !w.gasEntered && op.accepts
  {
    hide Funds, Books, Total, RunScript;
    EntryAtMostTotal(w.balanceOf, op.sender);
  }

  lemma GasDepositCredits(env: Env, w: World, sender: Address, amount: nat)
    requires sender !in env.Protocol()
    ensures Apply(env, w, GasDeposit(sender, amount)).Some?
      <==> 0 < amount <= Get(w.eth, sender) && Get(w.balanceOf, sender) + amount <= UINT256_MAX
    ensures Apply(env, w, GasDeposit(sender, amount)).Some? ==>
      var v := Apply(env, w, GasDeposit(sender, amount)).value;
      && Transferred(w.eth, v.eth, sender, env.gasVault, amount) && Credited(w.balanceOf, v.balanceOf, sender, amount)
      && v == w.(eth := v.eth, balanceOf := v.balanceOf)
  {}

  lemma DepositMoves(env: Env, w: World, op: Op)
    requires op.Deposit? && Apply(env, w, op).Some?
    ensures var v := Apply(env, w, op).value;
      && Transferred(w.bank, v.bank, (op.sender, op.token), (env.vault, op.token), op.amount)
      && Credited(w.freeBalance, v.freeBalance, (op.sender, op.token), op.amount)
      && v == w.(bank := v.bank, freeBalance := v.freeBalance)
  {}

  lemma WithdrawMoves(env: Env, w: World, op: Op)
    requires op.Withdraw? && Apply(env, w, op).Some?
    ensures var v := Apply(env, w, op).value;
      && Transferred(w.bank, v.bank, (env.vault, op.token), (op.sender, op.token), op.amount)
      && Debited(w.freeBalance, v.freeBalance, (op.sender, op.token), op.amount)
      && v == w.(bank := v.bank, freeBalance := v.freeBalance)
  {}

  lemma CancelReturns(env: Env, w: World, sender: Address, h: Hash, nullifier: nat)
    requires Apply(env, w, Cancel(sender, h, nullifier)).Some?
    ensures var v, c := Apply(env, w, Cancel(sender, h, nullifier)).value, At(w, h);
      && At(v, h) == c.(status := CANCELLED) && v.nullifiers == w.nullifiers + {nullifier}
      && Credited(w.freeBalance, v.freeBalance, (c.owner, c.tokenIn), c.size)
      && Debited(w.lockedBalance, v.lockedBalance, (h, c.tokenIn), c.size)
      && v.bank == w.bank && v.eth == w.eth && v.balanceOf == w.balanceOf
      && forall k :: k != h ==> At(v, k) == At(w, k)
  {}

  // Only the guardian pauses and unpauses, and that is all it does.
  lemma PauseSets(env: Env, w: World, op: Op)
    requires (op.Pause? || op.Unpause?) && op.sender !in env.Protocol()
    ensures Apply(env, w, op) == if op.sender == env.guardian then Some(w.(paused := op.Pause?)) else None
  {}

  // The price of a pair is that of its feeds, the token sold over the token bought, rounded down.
  lemma OraclePriceIsFloor(feeds: map<Token, Feed>, tokenIn: Token, tokenOut: Token)
    requires OraclePrice(feeds, tokenIn, tokenOut).Some?
    ensures tokenIn in feeds && tokenOut in feeds && feeds[tokenIn].answer > 0 && feeds[tokenOut].answer > 0
    ensures OraclePrice(feeds, tokenIn, tokenOut).value == ExactRatio(feeds[tokenIn], feeds[tokenOut]).Floor
  {
    hide ReadOraclePrice, ExactRatio;
    PriceIsFloor(feeds[tokenIn], feeds[tokenOut]);
  }
}
