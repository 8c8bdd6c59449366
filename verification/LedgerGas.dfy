// Prepaid gas: a user's balance goes down only by the user's own withdrawals and by the
// reimbursements of executions of the user's own commitments.
module LedgerGas {
  import opened Wrappers
  import opened Sums
  import opened Ledger
  import opened LedgerInvariant
  import opened LedgerTheorems

  // What executions have cost a user so far, by commitment
  function Debits(w: World, u: Address): map<Hash, nat> {
    map h | h in w.debits :: if w.debits[h].user == u then w.debits[h].amount else 0
  }

  ghost function GasClaim(w: World, u: Address): nat {
    Get(w.balanceOf, u) + Total(Debits(w, u))
  }

  // The user makes no gas withdrawal anywhere in the call.

  predicate NoWithdrawalBy(u: Address, op: Op)
    decreases op, 1
  {
    match op
    case GasWithdraw(sender, _, script, _) => sender != u && NoWithdrawalsBy(u, script)
    case Execute(_, _, _, _, _, _, swap, _, script, _) => NoWithdrawalsBy(u, swap) && NoWithdrawalsBy(u, script)
    case _ => true
  }

  predicate NoWithdrawalsBy(u: Address, ops: seq<Op>)
    decreases ops, 0
  {
    ops == [] || (NoWithdrawalBy(u, ops[0]) && NoWithdrawalsBy(u, ops[1..]))
  }

  lemma SameGasClaim(w: World, v: World, u: Address)
    requires v.debits == w.debits && Get(v.balanceOf, u) >= Get(w.balanceOf, u)
    ensures GasClaim(v, u) >= GasClaim(w, u)
  {
    assert Debits(v, u) == Debits(w, u);
  }

  // The record of a reimbursement and the debit itself cancel out.
  lemma RecordGasClaim(w: World, h: Hash, owner: Address, cost: nat, u: Address)
    requires h !in w.debits
    ensures GasClaim(Recorded(w, h, owner, cost), u) == GasClaim(w, u) + if u == owner then cost else 0
  {
    hide Total;
    var entry := if u == owner then cost else 0;
    TotalSet(Debits(w, u), h, entry);
    assert Debits(Recorded(w, h, owner, cost), u) == Debits(w, u)[h := entry];
  }

  lemma PayOutGasClaim(env: Env, w: World, user: Address, to: Address, amount: nat, u: Address)
    requires PayOut(env, w, user, to, amount).Some?
    ensures GasClaim(PayOut(env, w, user, to, amount).value, u) + (if u == user then amount else 0) == GasClaim(w, u)
  {
    hide Total;
    assert Debits(PayOut(env, w, user, to, amount).value, u) == Debits(w, u);
  }

  lemma {:induction false} RegisterFromGas(w: World, sender: Address, b: Batch, i: nat)
    requires SameLengths(b) && i <= |b.hashes| && RegisterFrom(w, sender, b, i).Some?
    ensures SameGas(w, RegisterFrom(w, sender, b, i).value)
    decreases |b.hashes| - i
  {
    hide Registrable, Get;
    if i < |b.hashes| {
      RegisterFromGas(StoreAndLock(w, sender, OrderIn(b, i)).value, sender, b, i + 1);
    }
  }

  lemma {:induction false} SweepFromGas(w: World, hashes: seq<Hash>)
    requires SweepFrom(w, hashes).Some?
    ensures SameGas(w, SweepFrom(w, hashes).value)
    decreases |hashes|
  {
    hide Due, Get;
    if hashes != [] {
      if Due(w, hashes[0]) {
        SweepFromGas(Expire(w, hashes[0]).value, hashes[1..]);
      } else {
        SweepFromGas(w, hashes[1..]);
      }
    }
  }

  ghost predicate SameGas(w: World, v: World) {
    v.balanceOf == w.balanceOf && v.debits == w.debits
  }

  lemma RegistryOpGas(env: Env, w: World, op: Op)
    requires RegistryOp(op) && Apply(env, w, op).Some?
    ensures SameGas(w, Apply(env, w, op).value)
  {
    hide RegisterFrom, SweepFrom, Registrable, Get;
    match op
    case RegisterBatch(sender, batch) => RegisterFromGas(w, sender, batch, 0);
    case Sweep(_, hashes) => SweepFromGas(w, hashes);
    case _ =>
  }

  lemma OutsideOpGasClaim(env: Env, w: World, op: Op, u: Address)
    requires !RegistryOp(op) && !CallsOut(op) && Apply(env, w, op).Some?
    ensures GasClaim(Apply(env, w, op).value, u) >= GasClaim(w, u)
  {
    OutsideOpFrozen(env, w, op);
    hide GasClaim;
    assert Get(Apply(env, w, op).value.balanceOf, u) >= Get(w.balanceOf, u);
    hide Apply;
    SameGasClaim(w, Apply(env, w, op).value, u);
  }

  lemma {:induction false} ScriptGasClaim(env: Env, w: World, ops: seq<Op>, u: Address)
    requires Inv(env, w) && NoWithdrawalsBy(u, ops)
    ensures GasClaim(RunScript(env, w, ops), u) >= GasClaim(w, u)
    decreases ops, 0
  {
    hide Inv, GasClaim, Apply, NoWithdrawalBy, Evolves, CallPoints;
    if ops != [] {
      CallGasClaim(env, w, ops[0], u);
      CallKeeps(env, w, ops[0]);
      ScriptGasClaim(env, After(env, w, ops[0]), ops[1..], u);
    }
  }

  // A payout costs its user the amount and nobody anything else.
  lemma {:induction false} PayGasClaim(env: Env, w: World, user: Address, to: Address, amount: nat, script: seq<Op>,
                                       accepts: bool, u: Address)
    requires Inv(env, w) && NoWithdrawalsBy(u, script) && PayAndCall(env, w, user, to, amount, script, accepts).Some?
    ensures GasClaim(PayAndCall(env, w, user, to, amount, script, accepts).value, u) + (if u == user then amount else 0)
      >= GasClaim(w, u)
    decreases script, 1
  {
    hide Inv, GasClaim, RunScript, NoWithdrawalsBy, PayOut;
    var v := PayOut(env, w, user, to, amount).value;
    PayOutGasClaim(env, w, user, to, amount, u);
    PayOutKeeps(env, w, user, to, amount);
    ScriptGasClaim(env, v, script, u);
    var done := RunScript(env, v, script);
    SameGasClaim(done, done.(gasEntered := false), u);
  }

  lemma {:induction false} DebitGasClaim(env: Env, w: World, h: Hash, keeper: Address, gasSpent: nat, script: seq<Op>, accepts: bool,
                                         u: Address)
    requires Inv(env, w) && At(w, h).status == EXECUTED && h !in w.debits && NoWithdrawalsBy(u, script)
    requires DebitGas(env, w, h, At(w, h).owner, keeper, gasSpent, script, accepts).Some?
    ensures GasClaim(DebitGas(env, w, h, At(w, h).owner, keeper, gasSpent, script, accepts).value, u) >= GasClaim(w, u)
    decreases script, 2
  {
    hide Inv, GasClaim, PayAndCall, Reimbursement, NoWithdrawalsBy;
    var owner := At(w, h).owner;
    if keeper != owner {
      var cost := Reimbursement(gasSpent).value;
      SameInv(env, w, Recorded(w, h, owner, cost));
      RecordGasClaim(w, h, owner, cost, u);
      PayGasClaim(env, Recorded(w, h, owner, cost), owner, keeper, cost, script, accepts, u);
    }
  }

  lemma StartGas(env: Env, w: World, v: World, h: Hash, nullifier: nat, proof: Proof, fillRef: nat)
    requires Inv(env, w) && StartExecution(env, w, h, nullifier, proof, fillRef) == Some(v)
    ensures SameGas(w, v) && h !in v.debits
  {
    hide Accepted, SettledOn;
    assert Booked(env, w, h);
    ExecutionEvent(env, w, v, h, nullifier, proof, fillRef);
  }

  lemma {:induction false} ExecuteGasClaim(env: Env, w: World, op: Op, u: Address)
    requires Inv(env, w) && op.Execute? && NoWithdrawalBy(u, op) && Apply(env, w, op).Some?
    ensures GasClaim(Apply(env, w, op).value, u) >= GasClaim(w, u)
    decreases op, 0
  {
    hide Inv, GasClaim, RunScript, NoWithdrawalsBy, StartExecution, DebitGas, Grows;
    var v := StartExecution(env, w, op.hash, op.nullifier, op.proof, op.fillRef).value;
    StartGas(env, w, v, op.hash, op.nullifier, op.proof, op.fillRef);
    SameGasClaim(w, v, u);
    StartExecutionKeeps(env, w, op.hash, op.nullifier, op.proof, op.fillRef);
    StartExecutionGuards(env, w, op.hash, op.nullifier, op.proof, op.fillRef);
    ScriptKeeps(env, v, op.swap);
    ScriptGasClaim(env, v, op.swap, u);
    var swapped := RunScript(env, v, op.swap);
    StillExecuted(env, w, v, swapped, op.hash, op.nullifier, op.proof, op.fillRef);
    DebitGasClaim(env, swapped, op.hash, op.sender, op.gasSpent, op.script, op.accepts, u);
    var paid := DebitGas(env, swapped, op.hash, At(swapped, op.hash).owner, op.sender, op.gasSpent, op.script, op.accepts).value;
    SameGasClaim(paid, paid.(entered := false), u);
  }

  lemma {:induction false} CallGasClaim(env: Env, w: World, op: Op, u: Address)
    requires Inv(env, w) && NoWithdrawalBy(u, op)
    ensures GasClaim(After(env, w, op), u) >= GasClaim(w, u)
    decreases op, 1
  {
    hide Inv, GasClaim, PayAndCall, NoWithdrawalsBy, Apply;
    if Apply(env, w, op).Some? {
      if op.Execute? {
        ExecuteGasClaim(env, w, op, u);
      } else if op.GasWithdraw? {
        GasWithdrawIsPay(env, w, op);
        PayGasClaim(env, w, op.sender, op.sender, op.amount, op.script, op.accepts, u);
      } else if RegistryOp(op) {
        RegistryOpGas(env, w, op);
        SameGasClaim(w, After(env, w, op), u);
      } else {
        OutsideOpGasClaim(env, w, op, u);
      }
    }
  }

  predicate NoWithdrawalIn(u: Address, steps: seq<Step>) {
    forall i :: 0 <= i < |steps| && steps[i].Transaction? ==> NoWithdrawalBy(u, steps[i].op)
  }

  lemma StepGasClaim(env: Env, w: World, step: Step, u: Address)
    requires Inv(env, w) && (step.Transaction? ==> NoWithdrawalBy(u, step.op))
    ensures GasClaim(Perform(env, w, step), u) >= GasClaim(w, u)
  {
    hide Inv, GasClaim, After, NoWithdrawalBy;
    match step
    case Transaction(op) => CallGasClaim(env, w, op, u);
    case Block(time) => SameGasClaim(w, if time >= w.now then w.(now := time) else w, u);
  }

  lemma {:induction false} RunGasClaim(env: Env, w: World, steps: seq<Step>, u: Address)
    requires Inv(env, w) && NoWithdrawalIn(u, steps)
    ensures GasClaim(Run(env, w, steps), u) >= GasClaim(w, u)
    decreases |steps|
  {
    hide Inv, GasClaim, Perform, NoWithdrawalBy;
    if steps != [] {
      StepGasClaim(env, w, steps[0], u);
      assert [steps[0]][1..] == [] && Run(env, w, [steps[0]]) == Perform(env, w, steps[0]);
      RunKeeps(env, w, [steps[0]]);
      RunGasClaim(env, Perform(env, w, steps[0]), steps[1..], u);
    }
  }

  // Over every run in which a user withdraws no gas, the prepaid balance falls by no more than
  // what is on record for executions, and each record is of one executed commitment of that user.
  lemma GasFallsOnlyByExecutions(env: Env, w: World, steps: seq<Step>, u: Address)
    requires Reachable(env, w) && NoWithdrawalIn(u, steps)
    ensures var v := Run(env, w, steps);
      && Get(v.balanceOf, u) + Total(Debits(v, u)) >= Get(w.balanceOf, u) + Total(Debits(w, u))
      && forall h :: h in v.debits ==> At(v, h).status == EXECUTED && v.debits[h].user == At(v, h).owner
  {
    hide Reachable, Total, SettledOn, Run;
    ReachableInv(env, w);
    RunGasClaim(env, w, steps, u);
    RunKeeps(env, w, steps);
    var v := Run(env, w, steps);
    forall h | h in v.debits ensures At(v, h).status == EXECUTED && v.debits[h].user == At(v, h).owner {
      assert Booked(env, v, h);
    }
  }

  // What one execution puts on record: nothing for the owner, and otherwise 120% of the gas cost,
  // rounded down, against the owner of the commitment.
  lemma ExecutionDebits(env: Env, w: World, op: Op)
    requires Inv(env, w) && op.Execute? && Apply(env, w, op).Some?
    ensures var v, owner := Apply(env, w, op).value, At(w, op.hash).owner;
      && (op.sender == owner ==> v.debits == w.debits)
      && (op.sender != owner ==>
            && Reimbursement(op.gasSpent).Some?
            && v.debits == w.debits[op.hash := Debit(owner, Reimbursement(op.gasSpent).value)]
            && 100 * Reimbursement(op.gasSpent).value <= 120 * op.gasSpent < 100 * (Reimbursement(op.gasSpent).value + 1))
  {
    hide Inv, Grows, RunScript, StartExecution, PayAndCall, PayPoints;
    var v := StartExecution(env, w, op.hash, op.nullifier, op.proof, op.fillRef).value;
    StartGas(env, w, v, op.hash, op.nullifier, op.proof, op.fillRef);
    StartExecutionKeeps(env, w, op.hash, op.nullifier, op.proof, op.fillRef);
    StartExecutionGuards(env, w, op.hash, op.nullifier, op.proof, op.fillRef);
    ScriptKeeps(env, v, op.swap);
    var swapped := RunScript(env, v, op.swap);
    StillExecuted(env, w, v, swapped, op.hash, op.nullifier, op.proof, op.fillRef);
    if op.sender != At(w, op.hash).owner {
      var owner, cost := At(w, op.hash).owner, Reimbursement(op.gasSpent).value;
      SameInv(env, swapped, Recorded(swapped, op.hash, owner, cost));
      PayKeeps(env, Recorded(swapped, op.hash, owner, cost), owner, op.sender, cost, op.script, op.accepts);
    }
  }
}
