// What a user owns across the token, the vault and the commitments, and that nobody else can lower it.
module LedgerClaims {
  import opened Wrappers
  import opened Sums
  import opened Ledger

  // A user's stake in a commitment: its size while it is pending, and once it was executed
  function Stake(c: Record, u: Address, t: Token): nat {
    if c.owner == u && c.tokenIn == t && (c.status == PENDING || c.status == EXECUTED) then c.size else 0
  }

  function Stakes(w: World, u: Address, t: Token): map<Hash, nat> {
    map h | h in w.commitments :: Stake(w.commitments[h], u, t)
  }

  // Tokens in hand, free in the vault, committed, or spent by an accepted execution
  ghost function Claim(w: World, u: Address, t: Token): nat {
    Get(w.bank, (u, t)) + Get(w.freeBalance, (u, t)) + Total(Stakes(w, u, t))
  }

  // The user makes no token transfer anywhere in the call.

  predicate NoTransferBy(u: Address, op: Op)
    decreases op, 1
  {
    match op
    case Transfer(sender, _, _, _) => sender != u
    case GasWithdraw(_, _, script, _) => NoTransfersBy(u, script)
    case Execute(_, _, _, _, _, _, swap, _, script, _) => NoTransfersBy(u, swap) && NoTransfersBy(u, script)
    case _ => true
  }

  predicate NoTransfersBy(u: Address, ops: seq<Op>)
    decreases ops, 0
  {
    ops == [] || (NoTransferBy(u, ops[0]) && NoTransfersBy(u, ops[1..]))
  }

  lemma StakeWrite(w: World, v: World, u: Address, t: Token, h: Hash, d: Record)
    requires v.commitments == w.commitments[h := d]
    ensures Total(Stakes(v, u, t)) + Stake(At(w, h), u, t) == Total(Stakes(w, u, t)) + Stake(d, u, t)
  {
    hide Stake;
    TotalSet(Stakes(w, u, t), h, Stake(d, u, t));
    assert Stakes(v, u, t) == Stakes(w, u, t)[h := Stake(d, u, t)];
    if h !in w.commitments { NoStake(u, t); }
  }

  lemma NoStake(u: Address, t: Token)
    ensures Stake(EMPTY, u, t) == 0
  {}

  lemma StoreClaim(w: World, sender: Address, o: Order, u: Address, t: Token)
    requires At(w, o.hash).status == NONE && StoreAndLock(w, sender, o).Some?
    ensures Claim(StoreAndLock(w, sender, o).value, u, t) == Claim(w, u, t)
  {
    hide Total, Stakes;
    StakeWrite(w, StoreAndLock(w, sender, o).value, u, t, o.hash,
               Record(sender, o.expiry, PENDING, o.kind, o.tokenIn, o.tokenOut, o.size, o.minOut));
  }

  lemma ExpireClaim(w: World, h: Hash, u: Address, t: Token)
    requires At(w, h).status == PENDING && Expire(w, h).Some?
    ensures Claim(Expire(w, h).value, u, t) == Claim(w, u, t)
  {
    hide Total, Stakes;
    StakeWrite(w, Expire(w, h).value, u, t, h, At(w, h).(status := EXPIRED));
  }

  lemma CancelClaim(w: World, sender: Address, h: Hash, nullifier: nat, u: Address, t: Token)
    requires CancelCommitment(w, sender, h, nullifier).Some?
    ensures Claim(CancelCommitment(w, sender, h, nullifier).value, u, t) == Claim(w, u, t)
  {
    hide Total, Stakes;
    StakeWrite(w, CancelCommitment(w, sender, h, nullifier).value, u, t, h, At(w, h).(status := CANCELLED));
  }

  lemma StartClaim(env: Env, w: World, h: Hash, nullifier: nat, proof: Proof, fillRef: nat, u: Address, t: Token)
    requires u != env.vault && StartExecution(env, w, h, nullifier, proof, fillRef).Some?
    ensures Claim(StartExecution(env, w, h, nullifier, proof, fillRef).value, u, t) >= Claim(w, u, t)
  {
    hide Total, Stakes, FillRef;
    StakeWrite(w, StartExecution(env, w, h, nullifier, proof, fillRef).value, u, t, h, At(w, h).(status := EXECUTED));
  }

  lemma {:induction false} RegisterFromClaim(w: World, sender: Address, b: Batch, i: nat, u: Address, t: Token)
    requires SameLengths(b) && i <= |b.hashes| && RegisterFrom(w, sender, b, i).Some?
    ensures Claim(RegisterFrom(w, sender, b, i).value, u, t) == Claim(w, u, t)
    decreases |b.hashes| - i
  {
    hide Claim, StoreAndLock;
    if i < |b.hashes| {
      StoreClaim(w, sender, OrderIn(b, i), u, t);
      RegisterFromClaim(StoreAndLock(w, sender, OrderIn(b, i)).value, sender, b, i + 1, u, t);
    }
  }

  lemma {:induction false} SweepFromClaim(w: World, hashes: seq<Hash>, u: Address, t: Token)
    requires SweepFrom(w, hashes).Some?
    ensures Claim(SweepFrom(w, hashes).value, u, t) == Claim(w, u, t)
    decreases |hashes|
  {
    hide Claim, Expire;
    if hashes != [] {
      if Due(w, hashes[0]) {
        ExpireClaim(w, hashes[0], u, t);
        SweepFromClaim(Expire(w, hashes[0]).value, hashes[1..], u, t);
      } else {
        SweepFromClaim(w, hashes[1..], u, t);
      }
    }
  }

  // The part of the world a claim is made of
  lemma SameClaim(w: World, v: World, u: Address, t: Token)
    requires v.bank == w.bank && v.freeBalance == w.freeBalance && v.commitments == w.commitments
    ensures Claim(v, u, t) == Claim(w, u, t)
  {
    assert Stakes(v, u, t) == Stakes(w, u, t);
  }

  lemma DepositClaim(env: Env, w: World, user: Address, token: Token, amount: nat, approved: bool, u: Address, t: Token)
    requires u != env.vault && user != env.vault && DepositCollateral(env, w, user, token, amount, approved).Some?
    ensures Claim(DepositCollateral(env, w, user, token, amount, approved).value, u, t) == Claim(w, u, t)
  {
    hide Total;
    assert Stakes(DepositCollateral(env, w, user, token, amount, approved).value, u, t) == Stakes(w, u, t);
  }

  lemma WithdrawClaim(env: Env, w: World, user: Address, token: Token, amount: nat, u: Address, t: Token)
    requires u != env.vault && user != env.vault && WithdrawCollateral(env, w, user, token, amount).Some?
    ensures Claim(WithdrawCollateral(env, w, user, token, amount).value, u, t) == Claim(w, u, t)
  {
    hide Total;
    assert Stakes(WithdrawCollateral(env, w, user, token, amount).value, u, t) == Stakes(w, u, t);
  }

  lemma TransferClaim(w: World, token: Token, from: Address, to: Address, amount: nat, u: Address, t: Token)
    requires u != from && TransferTokens(w, token, from, to, amount).Some?
    ensures Claim(TransferTokens(w, token, from, to, amount).value, u, t) >= Claim(w, u, t)
  {
    hide Total;
    assert Stakes(TransferTokens(w, token, from, to, amount).value, u, t) == Stakes(w, u, t);
  }

  lemma MintClaim(w: World, token: Token, to: Address, amount: nat, u: Address, t: Token)
    requires MintTokens(w, token, to, amount).Some?
    ensures Claim(MintTokens(w, token, to, amount).value, u, t) >= Claim(w, u, t)
  {
    hide Total;
    assert Stakes(MintTokens(w, token, to, amount).value, u, t) == Stakes(w, u, t);
  }

  // Calls that hand no control to the outside
  lemma PlainClaim(env: Env, w: World, op: Op, u: Address, t: Token)
    requires u !in env.Protocol() && NoTransferBy(u, op) && !op.GasWithdraw? && !op.Execute?
    requires Apply(env, w, op).Some?
    ensures Claim(Apply(env, w, op).value, u, t) >= Claim(w, u, t)
  {
    hide Claim, DepositCollateral, WithdrawCollateral, TransferTokens, MintTokens, StoreAndLock, RegisterFrom,
      CancelCommitment, SweepFrom;
    var v := Apply(env, w, op).value;
    match op
    case Deposit(sender, token, amount, approved) => DepositClaim(env, w, sender, token, amount, approved, u, t);
    case Withdraw(sender, token, amount) => WithdrawClaim(env, w, sender, token, amount, u, t);
    case Register(sender, order) => StoreClaim(w, sender, order, u, t);
    case RegisterBatch(sender, batch) => RegisterFromClaim(w, sender, batch, 0, u, t);
    case Cancel(sender, h, nullifier) => CancelClaim(w, sender, h, nullifier, u, t);
    case Sweep(_, hashes) => SweepFromClaim(w, hashes, u, t);
    case Transfer(sender, token, to, amount) => TransferClaim(w, token, sender, to, amount, u, t);
    case Mint(_, token, to, amount) => MintClaim(w, token, to, amount, u, t);
    case _ => SameClaim(w, v, u, t);
  }

  lemma {:induction false} ScriptClaim(env: Env, w: World, ops: seq<Op>, u: Address, t: Token)
    requires u !in env.Protocol() && NoTransfersBy(u, ops)
    ensures Claim(RunScript(env, w, ops), u, t) >= Claim(w, u, t)
    decreases ops, 0
  {
    hide Claim, Apply, NoTransferBy;
    if ops != [] {
      CallClaim(env, w, ops[0], u, t);
      ScriptClaim(env, After(env, w, ops[0]), ops[1..], u, t);
    }
  }

  lemma {:induction false} PayClaim(env: Env, w: World, user: Address, to: Address, amount: nat, script: seq<Op>, accepts: bool,
                                    u: Address, t: Token)
    requires u !in env.Protocol() && NoTransfersBy(u, script) && PayAndCall(env, w, user, to, amount, script, accepts).Some?
    ensures Claim(PayAndCall(env, w, user, to, amount, script, accepts).value, u, t) >= Claim(w, u, t)
    decreases script, 1
  {
    hide Claim, RunScript, NoTransfersBy;
    var v := PayOut(env, w, user, to, amount).value;
    SameClaim(w, v, u, t);
    ScriptClaim(env, v, script, u, t);
    var done := RunScript(env, v, script);
    SameClaim(done, done.(gasEntered := false), u, t);
  }

  lemma {:induction false} ExecuteClaim(env: Env, w: World, op: Op, u: Address, t: Token)
    requires op.Execute? && u !in env.Protocol() && NoTransferBy(u, op) && Apply(env, w, op).Some?
    ensures Claim(Apply(env, w, op).value, u, t) >= Claim(w, u, t)
    decreases op, 0
  {
    hide Claim, RunScript, NoTransfersBy, StartExecution, PayAndCall, Reimbursement;
    var v := StartExecution(env, w, op.hash, op.nullifier, op.proof, op.fillRef).value;
    StartClaim(env, w, op.hash, op.nullifier, op.proof, op.fillRef, u, t);
    ScriptClaim(env, v, op.swap, u, t);
    var swapped := RunScript(env, v, op.swap);
    var owner := At(swapped, op.hash).owner;
    if op.sender != owner {
      var cost := Reimbursement(op.gasSpent).value;
      SameClaim(swapped, Recorded(swapped, op.hash, owner, cost), u, t);
      PayClaim(env, Recorded(swapped, op.hash, owner, cost), owner, op.sender, cost, op.script, op.accepts, u, t);
    }
    var paid := DebitGas(env, swapped, op.hash, owner, op.sender, op.gasSpent, op.script, op.accepts).value;
    SameClaim(paid, paid.(entered := false), u, t);
  }

  // Whatever anyone does in a call, executions and re-entrant calls included, a user who
  // transfers no tokens away is not worse off.
  lemma {:induction false} CallClaim(env: Env, w: World, op: Op, u: Address, t: Token)
    requires u !in env.Protocol() && NoTransferBy(u, op)
    ensures Claim(After(env, w, op), u, t) >= Claim(w, u, t)
    decreases op, 1
  {
    hide Claim, PayAndCall, StartExecution, RunScript, NoTransfersBy;
    if Apply(env, w, op).Some? {
      if op.Execute? {
        ExecuteClaim(env, w, op, u, t);
      } else if op.GasWithdraw? {
        PayClaim(env, w, op.sender, op.sender, op.amount, op.script, op.accepts, u, t);
      } else {
        PlainClaim(env, w, op, u, t);
      }
    }
  }

  predicate NoTransferIn(u: Address, steps: seq<Step>) {
    forall i :: 0 <= i < |steps| && steps[i].Transaction? ==> NoTransferBy(u, steps[i].op)
  }

  lemma StepClaim(env: Env, w: World, step: Step, u: Address, t: Token)
    requires u !in env.Protocol() && (step.Transaction? ==> NoTransferBy(u, step.op))
    ensures Claim(Perform(env, w, step), u, t) >= Claim(w, u, t)
  {
    hide *;
    match step
    case Transaction(op) =>
      TransactionStep(env, w, op);
      CallClaim(env, w, op, u, t);
    case Block(time) => BlockStep(env, w, time, u, t);
  }

  lemma TransactionStep(env: Env, w: World, op: Op)
    ensures Perform(env, w, Transaction(op)) == After(env, w, op)
  {
    hide After;
  }

  lemma BlockStep(env: Env, w: World, time: nat, u: Address, t: Token)
    ensures Claim(Perform(env, w, Block(time)), u, t) == Claim(w, u, t)
  {
    hide After, Claim;
    SameClaim(w, if time >= w.now then w.(now := time) else w, u, t);
  }

  // Over a whole run only a user's own token transfers lower what the user has in hand, in the
  // vault, committed, or spent by an accepted execution of a commitment of theirs.
  lemma {:induction false} ClaimNeverDrops(env: Env, w: World, steps: seq<Step>, u: Address, t: Token)
    requires u !in env.Protocol() && NoTransferIn(u, steps)
    ensures Claim(Run(env, w, steps), u, t) >= Claim(w, u, t)
    decreases |steps|
  {
    hide Claim, Perform, NoTransferBy;
    if steps != [] {
      StepClaim(env, w, steps[0], u, t);
      ClaimNeverDrops(env, Perform(env, w, steps[0]), steps[1..], u, t);
    }
  }
}
