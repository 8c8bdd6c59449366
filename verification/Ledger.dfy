// What the registry, the two vaults and the outside world do to one another: one operation is one
// external call, None is a revert, and a call that hands control to the outside carries the
// operations the outside performs before it returns.
module Ledger {
  import opened Wrappers
  import opened Sums
  import opened Price

  type Address = nat
  type Token = nat
  type Hash = nat

  const KEEPER_PREMIUM_BPS: nat := 12000
  const DCA_FILL_REF_MAX_AGE: nat := 300
  const MAX_BATCH: nat := 10

  datatype Status = NONE | PENDING | EXECUTED | CANCELLED | EXPIRED
  datatype Kind = ORDER_FILL | DCA

  datatype Record = Record(owner: Address, expiry: nat, status: Status, kind: Kind,
                           tokenIn: Token, tokenOut: Token, size: nat, minOut: nat)

  // What an unwritten entry of the commitments mapping reads as
  const EMPTY := Record(0, 0, NONE, ORDER_FILL, 0, 0, 0, 0)

  // The public inputs as the words the verifier is called with
  datatype Words = Words(commitmentHash: Hash, fillRef: nat, nullifier: nat, tokenIn: Token, tokenOut: Token,
                         size: nat, minOut: nat, expiry: nat)

  type Proof = seq<nat>
  type Verifier = (Proof, Words) -> bool

  // The wiring, fixed for a run
  datatype Env = Env(vault: Address, gasVault: Address, registry: Address, dexAdapter: Address, guardian: Address,
                     verifiers: map<Kind, Verifier>)
  {
    function Protocol(): set<Address> { {vault, gasVault, registry} }
  }

  // The vault's events
  datatype Event =
    | CollateralLocked(hash: Hash, token: Token, amount: nat)
    | CollateralReleased(hash: Hash, token: Token, amount: nat, to: Address)
    | CollateralReturned(hash: Hash, user: Address, token: Token, amount: nat)

  // What was true when a proof was accepted
  datatype Settlement = Settlement(words: Words, proof: Proof, time: nat, feeds: map<Token, Feed>)

  // The gas vault's Debited event of an execution
  datatype Debit = Debit(user: Address, amount: nat)

  datatype World = World(
    // the tokens, the native balances, the block and the price feeds
    bank: map<(Address, Token), nat>, supply: map<Token, nat>, eth: map<Address, nat>, now: nat, feeds: map<Token, Feed>,
    // CollateralVault
    freeBalance: map<(Address, Token), nat>, lockedBalance: map<(Hash, Token), nat>,
    // GasVault and its re-entrancy guard
    balanceOf: map<Address, nat>, gasEntered: bool,
    // CommitmentRegistry and its re-entrancy guard
    paused: bool, commitments: map<Hash, Record>, nullifiers: set<nat>, entered: bool,
    // history: the vault's events, who spent which nullifier, what was settled on, who paid for the gas
    log: multiset<Event>, spends: map<Hash, nat>, settlements: map<Hash, Settlement>, debits: map<Hash, Debit>)

  datatype Order = Order(hash: Hash, tokenIn: Token, tokenOut: Token, size: nat, minOut: nat, expiry: nat, kind: Kind)

  datatype Batch = Batch(hashes: seq<Hash>, tokenIn: Token, tokenOut: Token, sizes: seq<nat>, minOuts: seq<nat>,
                         expiries: seq<nat>, kind: Kind)

  datatype Op =
    | Deposit(sender: Address, token: Token, amount: nat, approved: bool)
    | Withdraw(sender: Address, token: Token, amount: nat)
    | GasDeposit(sender: Address, amount: nat)
    | GasWithdraw(sender: Address, amount: nat, script: seq<Op>, accepts: bool)
    | Register(sender: Address, order: Order)
    | RegisterBatch(sender: Address, batch: Batch)
    | Execute(sender: Address, hash: Hash, nullifier: nat, proof: Proof, fillRef: nat, gasSpent: nat,
              swap: seq<Op>, swapSucceeds: bool, script: seq<Op>, accepts: bool)
    | Cancel(sender: Address, hash: Hash, nullifier: nat)
    | Sweep(sender: Address, hashes: seq<Hash>)
    | Pause(sender: Address)
    | Unpause(sender: Address)
    | Transfer(sender: Address, token: Token, to: Address, amount: nat)
    | Mint(sender: Address, token: Token, to: Address, amount: nat)
    | Send(sender: Address, to: Address, amount: nat)
    | SetFeed(sender: Address, token: Token, feed: Option<Feed>)

  function Lookup(commitments: map<Hash, Record>, h: Hash): Record {
    if h in commitments then commitments[h] else EMPTY
  }

  function At(w: World, h: Hash): Record {
    Lookup(w.commitments, h)
  }

  // Token and native transfers

  function Moved<K(==)>(m: map<K, nat>, from: K, to: K, amount: nat): map<K, nat>
    requires Get(m, from) >= amount
  {
    var debited := m[from := Get(m, from) - amount];
    debited[to := Get(debited, to) + amount]
  }

  function TransferTokens(w: World, token: Token, from: Address, to: Address, amount: nat): Option<World> {
    if Get(w.bank, (from, token)) < amount then None
    else Some(w.(bank := Moved(w.bank, (from, token), (to, token), amount)))
  }

  function SendEth(w: World, from: Address, to: Address, amount: nat): Option<World> {
    if Get(w.eth, from) < amount then None
    else Some(w.(eth := Moved(w.eth, from, to, amount)))
  }

  // The total supply of a token stays below 2^256.
  function MintTokens(w: World, token: Token, to: Address, amount: nat): Option<World> {
    if Get(w.supply, token) + amount > UINT256_MAX then None
    else Some(w.(supply := w.supply[token := Get(w.supply, token) + amount],
                 bank := w.bank[(to, token) := Get(w.bank, (to, token)) + amount]))
  }

  // CollateralVault

  function DepositCollateral(env: Env, w: World, user: Address, token: Token, amount: nat, approved: bool): Option<World> {
    if amount == 0 || !approved then None
    else match TransferTokens(w, token, user, env.vault, amount)
      case None => None
      case Some(v) =>
        var credited := Get(v.freeBalance, (user, token)) + amount;
        if credited > UINT256_MAX then None else Some(v.(freeBalance := v.freeBalance[(user, token) := credited]))
  }

  function WithdrawCollateral(env: Env, w: World, user: Address, token: Token, amount: nat): Option<World> {
    if amount == 0 || Get(w.freeBalance, (user, token)) < amount then None
    else
      var debited := w.freeBalance[(user, token) := Get(w.freeBalance, (user, token)) - amount];
      TransferTokens(w.(freeBalance := debited), token, env.vault, user, amount)
  }

  function LockCollateral(w: World, h: Hash, user: Address, token: Token, amount: nat): Option<World> {
    if Get(w.freeBalance, (user, token)) < amount then None
    else
      var locked := Get(w.lockedBalance, (h, token)) + amount;
      if locked > UINT256_MAX then None
      else Some(w.(freeBalance := w.freeBalance[(user, token) := Get(w.freeBalance, (user, token)) - amount],
                   lockedBalance := w.lockedBalance[(h, token) := locked],
                   log := w.log + multiset{CollateralLocked(h, token, amount)}))
  }

  function ReleaseForExecution(env: Env, w: World, h: Hash, token: Token, amount: nat, to: Address): Option<World> {
    if Get(w.lockedBalance, (h, token)) < amount then None
    else
      var debited := w.lockedBalance[(h, token) := Get(w.lockedBalance, (h, token)) - amount];
      match TransferTokens(w.(lockedBalance := debited), token, env.vault, to, amount)
      case None => None
      case Some(v) => Some(v.(log := v.log + multiset{CollateralReleased(h, token, amount, to)}))
  }

  function ReturnCollateral(w: World, h: Hash, user: Address, token: Token, amount: nat): Option<World> {
    if Get(w.lockedBalance, (h, token)) < amount then None
    else
      var credited := Get(w.freeBalance, (user, token)) + amount;
      if credited > UINT256_MAX then None
      else Some(w.(lockedBalance := w.lockedBalance[(h, token) := Get(w.lockedBalance, (h, token)) - amount],
                   freeBalance := w.freeBalance[(user, token) := credited],
                   log := w.log + multiset{CollateralReturned(h, user, token, amount)}))
  }

  // GasVault

  function DepositGas(env: Env, w: World, user: Address, amount: nat): Option<World> {
    if amount == 0 then None
    else match SendEth(w, user, env.gasVault, amount)
      case None => None
      case Some(v) =>
        var credited := Get(v.balanceOf, user) + amount;
        if credited > UINT256_MAX then None else Some(v.(balanceOf := v.balanceOf[user := credited]))
  }

  // The part of withdraw and debit up to the point where the recipient has control
  function PayOut(env: Env, w: World, user: Address, to: Address, amount: nat): Option<World> {
    if w.gasEntered || Get(w.balanceOf, user) < amount then None
    else SendEth(w.(gasEntered := true, balanceOf := w.balanceOf[user := Get(w.balanceOf, user) - amount]),
                 env.gasVault, to, amount)
  }

  // CommitmentRegistry

  predicate SetUp(env: Env, o: Order) {
    o.tokenIn != 0 && o.tokenOut != 0 && o.tokenIn != o.tokenOut && o.kind in env.verifiers
  }

  predicate Registrable(w: World, o: Order) {
    o.hash != 0 && o.size > 0 && o.expiry > w.now && At(w, o.hash).status == NONE
  }

  function StoreAndLock(w: World, sender: Address, o: Order): Option<World> {
    var record := Record(sender, o.expiry, PENDING, o.kind, o.tokenIn, o.tokenOut, o.size, o.minOut);
    LockCollateral(w.(commitments := w.commitments[o.hash := record]), o.hash, sender, o.tokenIn, o.size)
  }

  function RegisterCommitment(env: Env, w: World, sender: Address, o: Order): Option<World> {
    if w.entered || w.paused || !SetUp(env, o) || !Registrable(w, o) then None
    else StoreAndLock(w, sender, o)
  }

  predicate SameLengths(b: Batch) {
    |b.sizes| == |b.hashes| && |b.minOuts| == |b.hashes| && |b.expiries| == |b.hashes|
  }

  function OrderIn(b: Batch, i: nat): Order
    requires SameLengths(b) && i < |b.hashes|
  {
    Order(b.hashes[i], b.tokenIn, b.tokenOut, b.sizes[i], b.minOuts[i], b.expiries[i], b.kind)
  }

  function RegisterFrom(w: World, sender: Address, b: Batch, i: nat): Option<World>
    requires SameLengths(b) && i <= |b.hashes|
    decreases |b.hashes| - i
  {
    if i == |b.hashes| then Some(w)
    else if !Registrable(w, OrderIn(b, i)) then None
    else match StoreAndLock(w, sender, OrderIn(b, i))
      case None => None
      case Some(v) => RegisterFrom(v, sender, b, i + 1)
  }

  function RegisterCommitmentBatch(env: Env, w: World, sender: Address, b: Batch): Option<World> {
    if w.entered || w.paused then None
    else if !(0 < |b.hashes| <= MAX_BATCH) || !SameLengths(b) then None
    else if b.tokenIn == 0 || b.tokenOut == 0 || b.tokenIn == b.tokenOut || b.kind !in env.verifiers then None
    else RegisterFrom(w, sender, b, 0)
  }

  function OraclePrice(feeds: map<Token, Feed>, tokenIn: Token, tokenOut: Token): Option<nat> {
    if tokenIn in feeds && tokenOut in feeds then ReadOraclePrice(feeds[tokenIn], feeds[tokenOut]) else None
  }

  function FillRef(w: World, c: Record, fillRef: nat): Option<nat> {
    match c.kind
    case ORDER_FILL => if fillRef != 0 then None else OraclePrice(w.feeds, c.tokenIn, c.tokenOut)
    case DCA => if fillRef <= w.now && w.now - fillRef <= DCA_FILL_REF_MAX_AGE then Some(fillRef) else None
  }

  function WordsFor(h: Hash, fillRef: nat, nullifier: nat, c: Record): Words {
    Words(h, fillRef, nullifier, c.tokenIn, c.tokenOut, c.size, c.minOut, c.expiry)
  }

  // The checks of executeCommitment; the result is the fill reference the proof was checked against.
  function Accepted(env: Env, w: World, h: Hash, nullifier: nat, proof: Proof, fillRef: nat): Option<nat> {
    var c := At(w, h);
    if c.status != PENDING || w.now > c.expiry || nullifier in w.nullifiers || c.kind !in env.verifiers then None
    else match FillRef(w, c, fillRef)
      case None => None
      case Some(r) => if env.verifiers[c.kind](proof, WordsFor(h, r, nullifier, c)) then Some(r) else None
  }

  function MarkExecuted(w: World, h: Hash, nullifier: nat, proof: Proof, ref: nat): World {
    var c := At(w, h);
    w.(nullifiers := w.nullifiers + {nullifier},
       commitments := w.commitments[h := c.(status := EXECUTED)],
       spends := w.spends[h := nullifier],
       settlements := w.settlements[h := Settlement(WordsFor(h, ref, nullifier, c), proof, w.now, w.feeds)])
  }

  // executeCommitment up to the swap
  function StartExecution(env: Env, w: World, h: Hash, nullifier: nat, proof: Proof, fillRef: nat): Option<World> {
    if w.entered || w.paused then None
    else match Accepted(env, w, h, nullifier, proof, fillRef)
      case None => None
      case Some(r) =>
        var c := At(w, h);
        ReleaseForExecution(env, MarkExecuted(w.(entered := true), h, nullifier, proof, r), h, c.tokenIn, c.size, env.dexAdapter)
  }

  function Reimbursement(gasSpent: nat): Option<nat> {
    if gasSpent * KEEPER_PREMIUM_BPS > UINT256_MAX then None else Some(gasSpent * KEEPER_PREMIUM_BPS / 10000)
  }

  function CancelCommitment(w: World, sender: Address, h: Hash, nullifier: nat): Option<World> {
    var c := At(w, h);
    if w.entered || c.owner != sender || c.status != PENDING || nullifier in w.nullifiers then None
    else
      var marked := w.(nullifiers := w.nullifiers + {nullifier},
                       commitments := w.commitments[h := c.(status := CANCELLED)],
                       spends := w.spends[h := nullifier]);
      ReturnCollateral(marked, h, sender, c.tokenIn, c.size)
  }

  predicate Due(w: World, h: Hash) {
    At(w, h).status == PENDING && w.now > At(w, h).expiry
  }

  function Expire(w: World, h: Hash): Option<World> {
    var c := At(w, h);
    ReturnCollateral(w.(commitments := w.commitments[h := c.(status := EXPIRED)]), h, c.owner, c.tokenIn, c.size)
  }

  function SweepFrom(w: World, hashes: seq<Hash>): Option<World>
    decreases |hashes|
  {
    if hashes == [] then Some(w)
    else if !Due(w, hashes[0]) then SweepFrom(w, hashes[1..])
    else match Expire(w, hashes[0])
      case None => None
      case Some(v) => SweepFrom(v, hashes[1..])
  }

  function SweepExpired(w: World, hashes: seq<Hash>): Option<World> {
    if w.entered then None else SweepFrom(w, hashes)
  }

  // One call. The protocol's own contracts start none of these.
  function Apply(env: Env, w: World, op: Op): Option<World>
    decreases op, 1
  {
    if op.sender in env.Protocol() then None
    else match op
      case Deposit(sender, token, amount, approved) => DepositCollateral(env, w, sender, token, amount, approved)
      case Withdraw(sender, token, amount) => WithdrawCollateral(env, w, sender, token, amount)
      case GasDeposit(sender, amount) => DepositGas(env, w, sender, amount)
      case GasWithdraw(sender, amount, script, accepts) =>
        if amount == 0 then None else PayAndCall(env, w, sender, sender, amount, script, accepts)
      case Register(sender, order) => RegisterCommitment(env, w, sender, order)
      case RegisterBatch(sender, batch) => RegisterCommitmentBatch(env, w, sender, batch)
      case Execute(sender, h, nullifier, proof, fillRef, gasSpent, swap, swapSucceeds, script, accepts) =>
        (match StartExecution(env, w, h, nullifier, proof, fillRef)
         case None => None
         case Some(v) =>
           if !swapSucceeds then None
           else
             var swapped := RunScript(env, v, swap);
             match DebitGas(env, swapped, h, At(swapped, h).owner, sender, gasSpent, script, accepts)
             case None => None
             case Some(paid) => Some(paid.(entered := false)))
      case Cancel(sender, h, nullifier) => CancelCommitment(w, sender, h, nullifier)
      case Sweep(_, hashes) => SweepExpired(w, hashes)
      case Pause(sender) => if sender == env.guardian then Some(w.(paused := true)) else None
      case Unpause(sender) => if sender == env.guardian then Some(w.(paused := false)) else None
      case Transfer(sender, token, to, amount) => TransferTokens(w, token, sender, to, amount)
      case Mint(_, token, to, amount) => MintTokens(w, token, to, amount)
      case Send(sender, to, amount) => SendEth(w, sender, to, amount)
      case SetFeed(_, token, feed) =>
        Some(w.(feeds := if feed.Some? then w.feeds[token := feed.value] else w.feeds - {token}))
  }

  // withdraw and debit of the gas vault: the recipient has control before the guard opens again.
  function PayAndCall(env: Env, w: World, user: Address, to: Address, amount: nat, script: seq<Op>, accepts: bool): Option<World>
    decreases script, 1
  {
    match PayOut(env, w, user, to, amount)
    case None => None
    case Some(v) => if accepts then Some(RunScript(env, v, script).(gasEntered := false)) else None
  }

  function Recorded(w: World, h: Hash, user: Address, cost: nat): World {
    w.(debits := w.debits[h := Debit(user, cost)])
  }

  // _debitGas: the keeper's reimbursement, skipped for the owner
  function DebitGas(env: Env, w: World, h: Hash, owner: Address, keeper: Address, gasSpent: nat, script: seq<Op>,
                    accepts: bool): Option<World>
    decreases script, 2
  {
    if keeper == owner then Some(w)
    else match Reimbursement(gasSpent)
      case None => None
      case Some(cost) => PayAndCall(env, Recorded(w, h, owner, cost), owner, keeper, cost, script, accepts)
  }

  function After(env: Env, w: World, op: Op): World
    decreases op, 2
  {
    match Apply(env, w, op)
    case None => w
    case Some(v) => v
  }

  // What the outside does while it has control; a call of its own that reverts changes nothing.
  function RunScript(env: Env, w: World, ops: seq<Op>): World
    decreases ops, 0
  {
    if ops == [] then w else RunScript(env, After(env, w, ops[0]), ops[1..])
  }

  // The states in which somebody outside has control during a call
  ghost function CallPoints(env: Env, w: World, op: Op): seq<World>
    decreases op, 1
  {
    if op.sender in env.Protocol() then []
    else match op
      case GasWithdraw(sender, amount, script, _) =>
        if amount == 0 then [] else PayPoints(env, w, sender, sender, amount, script)
      case Execute(sender, h, nullifier, proof, fillRef, gasSpent, swap, swapSucceeds, script, _) =>
        (match StartExecution(env, w, h, nullifier, proof, fillRef)
         case None => []
         case Some(v) =>
           var swapped := RunScript(env, v, swap);
           ScriptPoints(env, v, swap)
           + if swapSucceeds then DebitPoints(env, swapped, h, At(swapped, h).owner, sender, gasSpent, script) else [])
      case _ => []
  }

  ghost function PayPoints(env: Env, w: World, user: Address, to: Address, amount: nat, script: seq<Op>): seq<World>
    decreases script, 1
  {
    match PayOut(env, w, user, to, amount)
    case None => []
    case Some(v) => ScriptPoints(env, v, script)
  }

  ghost function DebitPoints(env: Env, w: World, h: Hash, owner: Address, keeper: Address, gasSpent: nat,
                             script: seq<Op>): seq<World>
    decreases script, 2
  {
    if keeper == owner || Reimbursement(gasSpent).None? then []
    else
      var cost := Reimbursement(gasSpent).value;
      PayPoints(env, Recorded(w, h, owner, cost), owner, keeper, cost, script)
  }

  ghost function ScriptPoints(env: Env, w: World, ops: seq<Op>): seq<World>
    decreases ops, 0
  {
    [w] + if ops == [] then [] else CallPoints(env, w, ops[0]) + ScriptPoints(env, After(env, w, ops[0]), ops[1..])
  }

  // Runs: transactions and new blocks

  datatype Step = Transaction(op: Op) | Block(time: nat)

  function Perform(env: Env, w: World, step: Step): World {
    match step
    case Transaction(op) => After(env, w, op)
    case Block(time) => if time >= w.now then w.(now := time) else w
  }

  function Run(env: Env, w: World, steps: seq<Step>): World
    decreases |steps|
  {
    if steps == [] then w else Run(env, Perform(env, w, steps[0]), steps[1..])
  }

  // Freshly deployed contracts over any token holdings whose supplies are below 2^256
  ghost predicate Genesis(w: World) {
    && w.freeBalance == map[] && w.lockedBalance == map[] && w.balanceOf == map[] && !w.gasEntered
    && w.commitments == map[] && w.nullifiers == {} && !w.entered
    && w.log == multiset{} && w.spends == map[] && w.settlements == map[] && w.debits == map[]
    && forall t :: TotalFor(w.bank, t) == Get(w.supply, t) <= UINT256_MAX
  }
}
