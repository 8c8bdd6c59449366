// The contracts as they are written: fields updated in place, one statement after the other, with
// the whole call undone when it reverts. Every method is proved against the ledger's functions.
module Contracts {
  import opened Wrappers
  import opened Sums
  import opened Price
  import opened Ledger

  // The chain the contracts live on: token and native balances, the block, the price feeds, and
  // the log of what happened.
  class Chain {
    const env: Env
    const vault: CollateralVault
    const gasVault: GasVault
    const registry: CommitmentRegistry

    var bank: map<(Address, Token), nat>
    var supply: map<Token, nat>
    var eth: map<Address, nat>
    var now: nat
    var feeds: map<Token, Feed>
    var log: multiset<Event>
    var spends: map<Hash, nat>
    var settlements: map<Hash, Settlement>
    var debits: map<Hash, Debit>

    constructor (env: Env, bank: map<(Address, Token), nat>, supply: map<Token, nat>, eth: map<Address, nat>, now: nat,
                 feeds: map<Token, Feed>)
      requires forall t :: TotalFor(bank, t) == Get(supply, t) <= UINT256_MAX
      ensures fresh(this) && fresh(vault) && fresh(gasVault) && fresh(registry)
      ensures this.env == env && Genesis(State()) && !State().paused
      ensures this.bank == bank && this.supply == supply && this.eth == eth && this.now == now && this.feeds == feeds
    {
      this.env := env;
      this.bank, this.supply, this.eth, this.now, this.feeds := bank, supply, eth, now, feeds;
      log, spends, settlements, debits := multiset{}, map[], map[], map[];
      vault := new CollateralVault();
      gasVault := new GasVault();
      registry := new CommitmentRegistry();
    }

    function State(): World
      reads this, vault, gasVault, registry
    {
      World(bank, supply, eth, now, feeds, vault.freeBalance, vault.lockedBalance, gasVault.balanceOf, gasVault.entered,
            registry.paused, registry.commitments, registry.nullifiers, registry.entered, log, spends, settlements,
            debits)
    }

    // A revert takes the chain back to where the call began.
    method Revert(w: World)
      modifies this, vault, gasVault, registry
      ensures State() == w
    {
      vault.Restore(w.freeBalance, w.lockedBalance);
      gasVault.Restore(w.balanceOf, w.gasEntered);
      registry.Restore(w.paused, w.commitments, w.nullifiers, w.entered);
      bank, supply, eth, now, feeds := w.bank, w.supply, w.eth, w.now, w.feeds;
      log, spends, settlements, debits := w.log, w.spends, w.settlements, w.debits;
    }

    method TransferTokens(token: Token, from: Address, to: Address, amount: nat) returns (ok: bool)
      modifies this`bank
      ensures ok == Ledger.TransferTokens(old(State()), token, from, to, amount).Some?
      ensures State() == if ok then Ledger.TransferTokens(old(State()), token, from, to, amount).value else old(State())
    {
      hide Get;
      if Get(bank, (from, token)) < amount {
        return false;
      }
      bank := bank[(from, token) := Get(bank, (from, token)) - amount];
      bank := bank[(to, token) := Get(bank, (to, token)) + amount];
      return true;
    }

    method MintTokens(token: Token, to: Address, amount: nat) returns (ok: bool)
      modifies this`bank, this`supply
      ensures ok == Ledger.MintTokens(old(State()), token, to, amount).Some?
      ensures State() == if ok then Ledger.MintTokens(old(State()), token, to, amount).value else old(State())
    {
      if Get(supply, token) + amount > UINT256_MAX {
        return false;
      }
      supply := supply[token := Get(supply, token) + amount];
      bank := bank[(to, token) := Get(bank, (to, token)) + amount];
      return true;
    }

    method SendEth(from: Address, to: Address, amount: nat) returns (ok: bool)
      modifies this`eth
      ensures ok == Ledger.SendEth(old(State()), from, to, amount).Some?
      ensures State() == if ok then Ledger.SendEth(old(State()), from, to, amount).value else old(State())
    {
      if Get(eth, from) < amount {
        return false;
      }
      eth := eth[from := Get(eth, from) - amount];
      eth := eth[to := Get(eth, to) + amount];
      return true;
    }

    // One external call
    method Call(op: Op) returns (ok: bool)
      modifies this, vault, gasVault, registry
      ensures ok == Apply(env, old(State()), op).Some?
      ensures State() == After(env, old(State()), op)
      decreases op, 4
    {
      hide DepositCollateral, WithdrawCollateral, DepositGas, RegisterCommitment, RegisterCommitmentBatch,
        CancelCommitment, SweepExpired, Ledger.TransferTokens, Ledger.MintTokens, Ledger.SendEth, PayAndCall,
        StartExecution, Ledger.DebitGas, RunScript;
      if op.sender in env.Protocol() {
        return false;
      }
      match op
      case Deposit(sender, token, amount, approved) => ok := vault.Deposit(this, sender, token, amount, approved);
      case Withdraw(sender, token, amount) => ok := vault.Withdraw(this, sender, token, amount);
      case GasDeposit(sender, amount) => ok := gasVault.Deposit(this, sender, amount);
      case GasWithdraw(sender, amount, script, accepts) => ok := gasVault.Withdraw(this, sender, amount, script, accepts);
      case Register(sender, order) => ok := registry.RegisterCommitment(this, sender, order);
      case RegisterBatch(sender, batch) => ok := registry.RegisterCommitmentBatch(this, sender, batch);
      case Execute(_, _, _, _, _, _, _, _, _, _) => ok := registry.ExecuteCommitment(this, op);
      case Cancel(sender, h, nullifier) => ok := registry.CancelCommitment(this, sender, h, nullifier);
      case Sweep(_, hashes) => ok := registry.SweepExpired(this, hashes);
      case Pause(sender) => ok := registry.SetPaused(this, sender, true);
      case Unpause(sender) => ok := registry.SetPaused(this, sender, false);
      case Transfer(sender, token, to, amount) => ok := TransferTokens(token, sender, to, amount);
      case Mint(_, token, to, amount) => ok := MintTokens(token, to, amount);
      case Send(sender, to, amount) => ok := SendEth(sender, to, amount);
      case SetFeed(_, token, feed) =>
        feeds := if feed.Some? then feeds[token := feed.value] else feeds - {token};
        ok := true;
    }

    // Whoever has control makes calls of their own, and carries on when one of them reverts.
    method Outside(ops: seq<Op>)
      modifies this, vault, gasVault, registry
      ensures State() == RunScript(env, old(State()), ops)
      decreases ops, 0
    {
      hide After;
      for i := 0 to |ops|
        invariant RunScript(env, State(), ops[i..]) == RunScript(env, old(State()), ops)
      {
        assert ops[i..][0] == ops[i] && ops[i..][1..] == ops[i + 1..];
        var _ := Call(ops[i]);
      }
    }
  }

  class CollateralVault {
    var freeBalance: map<(Address, Token), nat>
    var lockedBalance: map<(Hash, Token), nat>

    constructor ()
      ensures freeBalance == map[] && lockedBalance == map[]
    {
      freeBalance, lockedBalance := map[], map[];
    }

    method Restore(free: map<(Address, Token), nat>, locked: map<(Hash, Token), nat>)
      modifies this
      ensures freeBalance == free && lockedBalance == locked
    {
      freeBalance, lockedBalance := free, locked;
    }

    method Deposit(chain: Chain, sender: Address, token: Token, amount: nat, approved: bool) returns (ok: bool)
      requires chain.vault == this
      modifies this, chain
      ensures ok == DepositCollateral(chain.env, old(chain.State()), sender, token, amount, approved).Some?
      ensures chain.State()
        == if ok then DepositCollateral(chain.env, old(chain.State()), sender, token, amount, approved).value else old(chain.State())
    {
      hide Get, Ledger.TransferTokens;
      if amount == 0 || !approved {
        return false;
      }
      var bank := chain.bank;
      ok := chain.TransferTokens(token, sender, chain.env.vault, amount);
      if !ok {
        return false;
      }
      var credited := Get(freeBalance, (sender, token)) + amount;
      if credited > UINT256_MAX {
        chain.bank := bank;
        return false;
      }
      freeBalance := freeBalance[(sender, token) := credited];
    }

    method Withdraw(chain: Chain, sender: Address, token: Token, amount: nat) returns (ok: bool)
      requires chain.vault == this
      modifies this, chain
      ensures ok == WithdrawCollateral(chain.env, old(chain.State()), sender, token, amount).Some?
      ensures chain.State()
        == if ok then WithdrawCollateral(chain.env, old(chain.State()), sender, token, amount).value else old(chain.State())
    {
      hide Get, Ledger.TransferTokens;
      if amount == 0 || Get(freeBalance, (sender, token)) < amount {
        return false;
      }
      var before := freeBalance;
      freeBalance := freeBalance[(sender, token) := Get(freeBalance, (sender, token)) - amount];
      ok := chain.TransferTokens(token, chain.env.vault, sender, amount);
      if !ok {
        freeBalance := before;
      }
    }

    // The three calls only the registry may make

    method LockCollateral(chain: Chain, caller: Address, h: Hash, user: Address, token: Token, amount: nat) returns (ok: bool)
      requires chain.vault == this
      modifies this, chain`log
      ensures ok == (caller == chain.env.registry && Ledger.LockCollateral(old(chain.State()), h, user, token, amount).Some?)
      ensures chain.State()
        == if ok then Ledger.LockCollateral(old(chain.State()), h, user, token, amount).value else old(chain.State())
    {
      hide Get;
      if caller != chain.env.registry || Get(freeBalance, (user, token)) < amount
         || Get(lockedBalance, (h, token)) + amount > UINT256_MAX {
        return false;
      }
      freeBalance := freeBalance[(user, token) := Get(freeBalance, (user, token)) - amount];
      lockedBalance := lockedBalance[(h, token) := Get(lockedBalance, (h, token)) + amount];
      chain.log := chain.log + multiset{CollateralLocked(h, token, amount)};
      return true;
    }

    method ReleaseForExecution(chain: Chain, caller: Address, h: Hash, token: Token, amount: nat, to: Address) returns (ok: bool)
      requires chain.vault == this
      modifies this, chain
      ensures ok == (caller == chain.env.registry
                     && Ledger.ReleaseForExecution(chain.env, old(chain.State()), h, token, amount, to).Some?)
      ensures chain.State()
        == if ok then Ledger.ReleaseForExecution(chain.env, old(chain.State()), h, token, amount, to).value else old(chain.State())
    {
      hide Get, Ledger.TransferTokens;
      if caller != chain.env.registry || Get(lockedBalance, (h, token)) < amount {
        return false;
      }
      var before := lockedBalance;
      lockedBalance := lockedBalance[(h, token) := Get(lockedBalance, (h, token)) - amount];
      assert chain.State() == old(chain.State()).(lockedBalance := lockedBalance);
      ok := chain.TransferTokens(token, chain.env.vault, to, amount);
      if !ok {
        lockedBalance := before;
        return false;
      }
      chain.log := chain.log + multiset{CollateralReleased(h, token, amount, to)};
    }

    method ReturnCollateral(chain: Chain, caller: Address, h: Hash, user: Address, token: Token, amount: nat) returns (ok: bool)
      requires chain.vault == this
      modifies this, chain`log
      ensures ok == (caller == chain.env.registry && Ledger.ReturnCollateral(old(chain.State()), h, user, token, amount).Some?)
      ensures chain.State()
        == if ok then Ledger.ReturnCollateral(old(chain.State()), h, user, token, amount).value else old(chain.State())
    {
      if caller != chain.env.registry || Get(lockedBalance, (h, token)) < amount
         || Get(freeBalance, (user, token)) + amount > UINT256_MAX {
        return false;
      }
      lockedBalance := lockedBalance[(h, token) := Get(lockedBalance, (h, token)) - amount];
      freeBalance := freeBalance[(user, token) := Get(freeBalance, (user, token)) + amount];
      chain.log := chain.log + multiset{CollateralReturned(h, user, token, amount)};
      return true;
    }
  }

  class GasVault {
    var balanceOf: map<Address, nat>
    var entered: bool

    constructor ()
      ensures balanceOf == map[] && !entered
    {
      balanceOf, entered := map[], false;
    }

    method Restore(balances: map<Address, nat>, guard: bool)
      modifies this
      ensures balanceOf == balances && entered == guard
    {
      balanceOf, entered := balances, guard;
    }

    // deposit and receive
    method Deposit(chain: Chain, sender: Address, amount: nat) returns (ok: bool)
      requires chain.gasVault == this
      modifies this, chain
      ensures ok == DepositGas(chain.env, old(chain.State()), sender, amount).Some?
      ensures chain.State()
        == if ok then DepositGas(chain.env, old(chain.State()), sender, amount).value else old(chain.State())
    {
      if amount == 0 {
        return false;
      }
      var eth := chain.eth;
      ok := chain.SendEth(sender, chain.env.gasVault, amount);
      if !ok {
        return false;
      }
      var credited := Get(balanceOf, sender) + amount;
      if credited > UINT256_MAX {
        chain.eth := eth;
        return false;
      }
      balanceOf := balanceOf[sender := credited];
    }

    method Withdraw(chain: Chain, sender: Address, amount: nat, script: seq<Op>, accepts: bool) returns (ok: bool)
      requires chain.gasVault == this
      modifies this, chain, chain.vault, chain.registry
      ensures ok == (amount > 0 && PayAndCall(chain.env, old(chain.State()), sender, sender, amount, script, accepts).Some?)
      ensures chain.State()
        == if ok then PayAndCall(chain.env, old(chain.State()), sender, sender, amount, script, accepts).value else old(chain.State())
      decreases script, 2
    {
      if amount == 0 {
        return false;
      }
      ok := PayGuarded(chain, sender, sender, amount, script, accepts);
    }

    method Debit(chain: Chain, caller: Address, user: Address, keeper: Address, amount: nat, script: seq<Op>, accepts: bool)
      returns (ok: bool)
      requires chain.gasVault == this
      modifies this, chain, chain.vault, chain.registry
      ensures ok == (caller == chain.env.registry
                     && PayAndCall(chain.env, old(chain.State()), user, keeper, amount, script, accepts).Some?)
      ensures chain.State()
        == if ok then PayAndCall(chain.env, old(chain.State()), user, keeper, amount, script, accepts).value else old(chain.State())
      decreases script, 2
    {
      if caller != chain.env.registry {
        return false;
      }
      ok := PayGuarded(chain, user, keeper, amount, script, accepts);
    }

    // What withdraw and debit share: the guard and the balance, then the value call to the recipient
    method PayOut(chain: Chain, user: Address, to: Address, amount: nat) returns (ok: bool)
      requires chain.gasVault == this
      modifies this, chain`eth
      ensures ok == Ledger.PayOut(chain.env, old(chain.State()), user, to, amount).Some?
      ensures chain.State()
        == if ok then Ledger.PayOut(chain.env, old(chain.State()), user, to, amount).value else old(chain.State())
    {
      if entered || Get(balanceOf, user) < amount {
        return false;
      }
      var before := balanceOf;
      entered := true;
      balanceOf := balanceOf[user := Get(balanceOf, user) - amount];
      ok := chain.SendEth(chain.env.gasVault, to, amount);
      if !ok {
        balanceOf, entered := before, false;
      }
    }

    method PayGuarded(chain: Chain, user: Address, to: Address, amount: nat, script: seq<Op>, accepts: bool) returns (ok: bool)
      requires chain.gasVault == this
      modifies this, chain, chain.vault, chain.registry
      ensures ok == PayAndCall(chain.env, old(chain.State()), user, to, amount, script, accepts).Some?
      ensures chain.State()
        == if ok then PayAndCall(chain.env, old(chain.State()), user, to, amount, script, accepts).value else old(chain.State())
      decreases script, 1
    {
      hide RunScript, Ledger.PayOut;
      var before := chain.State();
      ok := PayOut(chain, user, to, amount);
      if !ok {
        return false;
      }
      chain.Outside(script);
      if !accepts {
        chain.Revert(before);
        return false;
      }
      entered := false;
    }
  }

  class CommitmentRegistry {
    var paused: bool
    var commitments: map<Hash, Record>
    var nullifiers: set<nat>
    var entered: bool

    constructor ()
      ensures !paused && commitments == map[] && nullifiers == {} && !entered
    {
      paused, commitments, nullifiers, entered := false, map[], {}, false;
    }

    method Restore(pause: bool, records: map<Hash, Record>, spent: set<nat>, guard: bool)
      modifies this
      ensures paused == pause && commitments == records && nullifiers == spent && entered == guard
    {
      paused, commitments, nullifiers, entered := pause, records, spent, guard;
    }

    // One record and its lock, as both registrations write them
    method StoreAndLock(chain: Chain, sender: Address, o: Order) returns (ok: bool)
      requires chain.registry == this
      modifies this, chain, chain.vault, chain.gasVault
      ensures ok == Ledger.StoreAndLock(old(chain.State()), sender, o).Some?
      ensures chain.State() == if ok then Ledger.StoreAndLock(old(chain.State()), sender, o).value else old(chain.State())
    {
      hide Ledger.LockCollateral;
      var before := commitments;
      commitments := commitments[o.hash := Record(sender, o.expiry, PENDING, o.kind, o.tokenIn, o.tokenOut, o.size, o.minOut)];
      ok := chain.vault.LockCollateral(chain, chain.env.registry, o.hash, sender, o.tokenIn, o.size);
      if !ok {
        commitments := before;
      }
    }

    // registerCommitment
    method RegisterCommitment(chain: Chain, sender: Address, o: Order) returns (ok: bool)
      requires chain.registry == this
      modifies this, chain, chain.vault, chain.gasVault
      ensures ok == Ledger.RegisterCommitment(chain.env, old(chain.State()), sender, o).Some?
      ensures chain.State()
        == if ok then Ledger.RegisterCommitment(chain.env, old(chain.State()), sender, o).value else old(chain.State())
    {
      hide Ledger.StoreAndLock;
      if entered || paused {
        return false;
      }
      if o.hash == 0 || o.tokenIn == 0 || o.tokenOut == 0 || o.tokenIn == o.tokenOut || o.size == 0 || o.expiry <= chain.now {
        return false;
      }
      if o.kind !in chain.env.verifiers || Lookup(commitments, o.hash).status != NONE {
        return false;
      }
      ok := StoreAndLock(chain, sender, o);
    }

    // registerCommitmentBatch
    method RegisterCommitmentBatch(chain: Chain, sender: Address, b: Batch) returns (ok: bool)
      requires chain.registry == this
      modifies this, chain, chain.vault, chain.gasVault
      ensures ok == Ledger.RegisterCommitmentBatch(chain.env, old(chain.State()), sender, b).Some?
      ensures chain.State()
        == if ok then Ledger.RegisterCommitmentBatch(chain.env, old(chain.State()), sender, b).value else old(chain.State())
    {
      hide Ledger.StoreAndLock;
      if entered || paused {
        return false;
      }
      var n := |b.hashes|;
      if n == 0 || n > MAX_BATCH || |b.sizes| != n || |b.minOuts| != n || |b.expiries| != n {
        return false;
      }
      if b.tokenIn == 0 || b.tokenOut == 0 || b.tokenIn == b.tokenOut || b.kind !in chain.env.verifiers {
        return false;
      }
      var before := chain.State();
      for i := 0 to n
        invariant RegisterFrom(chain.State(), sender, b, i) == RegisterFrom(before, sender, b, 0)
      {
        var h := b.hashes[i];
        if h == 0 || b.sizes[i] == 0 || b.expiries[i] <= chain.now || Lookup(commitments, h).status != NONE {
          chain.Revert(before);
          return false;
        }
        ok := StoreAndLock(chain, sender, OrderIn(b, i));
        if !ok {
          chain.Revert(before);
          return false;
        }
      }
      return true;
    }

    // The checks of executeCommitment and _readOraclePrice
    method CheckExecution(chain: Chain, h: Hash, nullifier: nat, proof: Proof, fillRef: nat) returns (ref: Option<nat>)
      requires chain.registry == this
      ensures ref == Accepted(chain.env, chain.State(), h, nullifier, proof, fillRef)
    {
      hide ReadOraclePrice;
      var c := Lookup(commitments, h);
      if c.status != PENDING || chain.now > c.expiry || nullifier in nullifiers || c.kind !in chain.env.verifiers {
        return None;
      }
      var r := fillRef;
      match c.kind {
      case ORDER_FILL =>
        if fillRef != 0 || c.tokenIn !in chain.feeds || c.tokenOut !in chain.feeds {
          return None;
        }
        var price := ReadOraclePrice(chain.feeds[c.tokenIn], chain.feeds[c.tokenOut]);
        if price.None? {
          return None;
        }
        r := price.value;
      case DCA =>
        if fillRef > chain.now || chain.now - fillRef > DCA_FILL_REF_MAX_AGE {
          return None;
        }
      }
      var valid := chain.env.verifiers[c.kind](proof, WordsFor(h, r, nullifier, c));
      return if valid then Some(r) else None;
    }

    // Marking before the external calls
    method MarkExecuted(chain: Chain, h: Hash, nullifier: nat, proof: Proof, ref: nat)
      requires chain.registry == this
      modifies this, chain
      ensures chain.State() == Ledger.MarkExecuted(old(chain.State()).(entered := true), h, nullifier, proof, ref)
    {
      var c := Lookup(commitments, h);
      entered := true;
      chain.settlements := chain.settlements[h := Settlement(WordsFor(h, ref, nullifier, c), proof, chain.now, chain.feeds)];
      chain.spends := chain.spends[h := nullifier];
      nullifiers := nullifiers + {nullifier};
      commitments := commitments[h := c.(status := EXECUTED)];
    }

    // executeCommitment up to the swap
    method StartExecution(chain: Chain, h: Hash, nullifier: nat, proof: Proof, fillRef: nat) returns (ok: bool)
      requires chain.registry == this
      modifies this, chain, chain.vault, chain.gasVault
      ensures ok == Ledger.StartExecution(chain.env, old(chain.State()), h, nullifier, proof, fillRef).Some?
      ensures chain.State()
        == if ok then Ledger.StartExecution(chain.env, old(chain.State()), h, nullifier, proof, fillRef).value else old(chain.State())
    {
      hide Accepted, Ledger.ReleaseForExecution, Ledger.MarkExecuted;
      if entered || paused {
        return false;
      }
      var ref := CheckExecution(chain, h, nullifier, proof, fillRef);
      if ref.None? {
        return false;
      }
      var before := chain.State();
      var c := Lookup(commitments, h);
      MarkExecuted(chain, h, nullifier, proof, ref.value);
      ok := chain.vault.ReleaseForExecution(chain, chain.env.registry, h, c.tokenIn, c.size, chain.env.dexAdapter);
      if !ok {
        chain.Revert(before);
      }
    }

    // executeCommitment; the operation says what the outside does while it has control.
    method ExecuteCommitment(chain: Chain, op: Op) returns (ok: bool)
      requires chain.registry == this && op.Execute? && op.sender !in chain.env.Protocol()
      modifies this, chain, chain.vault, chain.gasVault
      ensures ok == Apply(chain.env, old(chain.State()), op).Some?
      ensures chain.State() == After(chain.env, old(chain.State()), op)
      decreases op, 3
    {
      hide Ledger.StartExecution, RunScript, Ledger.DebitGas;
      var before := chain.State();
      ok := StartExecution(chain, op.hash, op.nullifier, op.proof, op.fillRef);
      if !ok {
        return false;
      }
      chain.Outside(op.swap);
      if !op.swapSucceeds {
        chain.Revert(before);
        return false;
      }
      ok := DebitGas(chain, op.hash, Lookup(commitments, op.hash).owner, op.sender, op.gasSpent, op.script, op.accepts);
      if !ok {
        chain.Revert(before);
        return false;
      }
      entered := false;
    }

    // _debitGas
    method DebitGas(chain: Chain, h: Hash, owner: Address, keeper: Address, gasSpent: nat, script: seq<Op>, accepts: bool)
      returns (ok: bool)
      requires chain.registry == this
      modifies this, chain, chain.vault, chain.gasVault
      ensures ok == Ledger.DebitGas(chain.env, old(chain.State()), h, owner, keeper, gasSpent, script, accepts).Some?
      ensures chain.State()
        == if ok then Ledger.DebitGas(chain.env, old(chain.State()), h, owner, keeper, gasSpent, script, accepts).value
           else old(chain.State())
      decreases script, 3
    {
      hide PayAndCall;
      if keeper == owner {
        return true;
      }
      if gasSpent * KEEPER_PREMIUM_BPS > UINT256_MAX {
        return false;
      }
      var cost := gasSpent * KEEPER_PREMIUM_BPS / 10000;
      var before := chain.debits;
      chain.debits := chain.debits[h := Ledger.Debit(owner, cost)];
      ok := chain.gasVault.Debit(chain, chain.env.registry, owner, keeper, cost, script, accepts);
      if !ok {
        chain.debits := before;
      }
    }

    // cancelCommitment
    method CancelCommitment(chain: Chain, sender: Address, h: Hash, nullifier: nat) returns (ok: bool)
      requires chain.registry == this
      modifies this, chain, chain.vault, chain.gasVault
      ensures ok == Ledger.CancelCommitment(old(chain.State()), sender, h, nullifier).Some?
      ensures chain.State()
        == if ok then Ledger.CancelCommitment(old(chain.State()), sender, h, nullifier).value else old(chain.State())
    {
      hide Ledger.ReturnCollateral;
      var c := Lookup(commitments, h);
      if entered || c.owner != sender || c.status != PENDING || nullifier in nullifiers {
        return false;
      }
      var before := chain.State();
      chain.spends := chain.spends[h := nullifier];
      nullifiers := nullifiers + {nullifier};
      commitments := commitments[h := c.(status := CANCELLED)];
      ok := chain.vault.ReturnCollateral(chain, chain.env.registry, h, sender, c.tokenIn, c.size);
      if !ok {
        chain.Revert(before);
      }
    }

    // sweepExpired
    method SweepExpired(chain: Chain, hashes: seq<Hash>) returns (ok: bool)
      requires chain.registry == this
      modifies this, chain, chain.vault, chain.gasVault
      ensures ok == Ledger.SweepExpired(old(chain.State()), hashes).Some?
      ensures chain.State()
        == if ok then Ledger.SweepExpired(old(chain.State()), hashes).value else old(chain.State())
    {
      hide Ledger.ReturnCollateral;
      if entered {
        return false;
      }
      var before := chain.State();
      for i := 0 to |hashes|
        invariant SweepFrom(chain.State(), hashes[i..]) == SweepFrom(before, hashes)
      {
        assert hashes[i..][0] == hashes[i] && hashes[i..][1..] == hashes[i + 1..];
        var h := hashes[i];
        var c := Lookup(commitments, h);
        if c.status != PENDING {
          continue;
        }
        if chain.now <= c.expiry {
          continue;
        }
        commitments := commitments[h := c.(status := EXPIRED)];
        ok := chain.vault.ReturnCollateral(chain, chain.env.registry, h, c.owner, c.tokenIn, c.size);
        if !ok {
          chain.Revert(before);
          return false;
        }
      }
      return true;
    }

    // pause and unpause
    method SetPaused(chain: Chain, sender: Address, value: bool) returns (ok: bool)
      requires chain.registry == this
      modifies this`paused
      ensures ok == (sender == chain.env.guardian)
      ensures chain.State() == if ok then old(chain.State()).(paused := value) else old(chain.State())
    {
      if sender != chain.env.guardian {
        return false;
      }
      paused := value;
      return true;
    }
  }
}
