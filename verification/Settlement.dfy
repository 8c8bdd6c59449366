// The ledger and the circuits together: what an accepted proof says about the committed strategy.
module Settlement {
  import opened Wrappers
  import opened PrimeField
  import opened Ledger
  import opened LedgerInvariant
  import opened LedgerTheorems
  import opened LedgerEffects
  import Packed
  import Circuits
  import C = Commitments

  ghost predicate InField(x: Words) {
    && x.commitmentHash < MODULUS && x.nullifier < MODULUS && x.tokenIn < MODULUS && x.tokenOut < MODULUS
    && x.size < MODULUS && x.minOut < MODULUS
  }

  // The words as the circuit's public inputs
  function Public(x: Words): C.PublicInputs {
    C.PublicInputs(Red(x.commitmentHash), x.fillRef, Red(x.nullifier), Red(x.tokenIn), Red(x.tokenOut),
                   Red(x.size), Red(x.minOut), x.expiry)
  }

  // Soundness of the two verifiers: words out of the field are refused, and from whatever is
  // accepted a satisfying witness can be read off.

  ghost predicate OrderVerifierSound(keccak: Circuits.Keccak, verifier: Verifier, extract: (Proof, Words) -> C.OrderWitness) {
    forall proof, x :: verifier(proof, x) ==> InField(x) && C.OrderMain(keccak, Public(x), extract(proof, x))
  }

  ghost predicate DcaVerifierSound(keccak: Circuits.Keccak, verifier: Verifier, extract: (Proof, Words) -> C.DcaWitness) {
    forall proof, x :: verifier(proof, x) ==> InField(x) && C.DcaMain(keccak, Public(x), extract(proof, x))
  }

  // The owner's strategy and the one the proof was made from do not collide under the hash.

  ghost predicate OrderBound(keccak: Circuits.Keccak, f: C.OrderFields, x: Words, wit: C.OrderWitness) {
    C.NoCollision(keccak, Packed.EncodePacked(Circuits.ORDER_WIDTHS, C.OrderList(f)),
                  Packed.EncodePacked(Circuits.ORDER_WIDTHS, C.OrderList(C.OrderSeen(Public(x), wit))))
  }

  ghost predicate DcaBound(keccak: Circuits.Keccak, f: C.DcaFields, x: Words, wit: C.DcaWitness) {
    C.NoCollision(keccak, Packed.EncodePacked(Circuits.DCA_WIDTHS, C.DcaList(f)),
                  Packed.EncodePacked(Circuits.DCA_WIDTHS, C.DcaList(C.DcaSeen(Public(x), wit))))
  }

  lemma ExecutedIsSettled(env: Env, w: World, h: Hash)
    requires Visible(env, w)
    ensures h in w.settlements <==> At(w, h).status == EXECUTED
    ensures h in w.settlements ==> SettledOn(env, h, At(w, h), w.settlements[h])
    ensures h in w.settlements ==> h in w.spends && w.settlements[h].words.nullifier == w.spends[h]
  {
    hide Visible, Counted, Bijective, Funds, GasFunds;
    VisibleInv(env, w);
    assert Booked(env, w, h);
  }

  lemma Canonical(n: nat)
    requires n < MODULUS
    ensures Red(n).v as nat == n
  {}

  // An executed order was filled at an on-chain price on the committed side of the committed
  // limit, not after the committed expiry, for the committed tokens and amounts, and the nullifier
  // it spent is the one of the owner's secret and nonce.
  lemma OrderSettledAtLimit(env: Env, keccak: Circuits.Keccak, extract: (Proof, Words) -> C.OrderWitness,
                            w: World, h: Hash, f: C.OrderFields)
    requires Visible(env, w) && h in w.settlements && At(w, h).kind == ORDER_FILL
    requires ORDER_FILL in env.verifiers && OrderVerifierSound(keccak, env.verifiers[ORDER_FILL], extract)
    requires C.OrderInRange(f) && C.CommitmentHash(keccak, f) == Red(h)
    requires var s := w.settlements[h]; OrderBound(keccak, f, s.words, extract(s.proof, s.words))
    ensures var s, c := w.settlements[h], At(w, h);
      && c.status == EXECUTED
      && OraclePrice(s.feeds, c.tokenIn, c.tokenOut) == Some(s.words.fillRef)
      && (if f.direction then s.words.fillRef >= f.price else s.words.fillRef <= f.price)
      && s.time <= f.expiry
      && c.tokenIn == f.tokenIn && c.tokenOut == f.tokenOut && c.size == f.size && c.minOut == f.minOut && c.expiry == f.expiry
      && h in w.spends && w.spends[h] == NullifierOf(keccak, f.userSecret, f.nonce)
  {
    ExecutedIsSettled(env, w, h);
    var s, c := w.settlements[h], At(w, h);
    hide Visible, C.OrderInRange, C.CommitmentHash, C.NullifierHash, OraclePrice, C.AssertAddressField, Red;
    var wit := extract(s.proof, s.words);
    assert InField(s.words) && C.OrderMain(keccak, Public(s.words), wit);
    C.OrderBinding(keccak, Public(s.words), wit, f);
    Canonical(c.tokenIn);
    Canonical(c.tokenOut);
    Canonical(c.size);
    Canonical(c.minOut);
    Canonical(s.words.nullifier);
  }

  // An executed DCA round was proven for a time inside the committed window and settled at most
  // DCA_FILL_REF_MAX_AGE after it, not after the committed expiry.
  lemma DcaSettledInWindow(env: Env, keccak: Circuits.Keccak, extract: (Proof, Words) -> C.DcaWitness,
                           w: World, h: Hash, f: C.DcaFields)
    requires Visible(env, w) && h in w.settlements && At(w, h).kind == DCA
    requires DCA in env.verifiers && DcaVerifierSound(keccak, env.verifiers[DCA], extract)
    requires C.DcaInRange(f) && C.DcaCommitmentHash(keccak, f) == Red(h)
    requires var s := w.settlements[h]; DcaBound(keccak, f, s.words, extract(s.proof, s.words))
    ensures var s, c := w.settlements[h], At(w, h);
      && c.status == EXECUTED
      && f.scheduledLo <= s.time <= f.scheduledHi + DCA_FILL_REF_MAX_AGE
      && s.time <= f.expiry
      && c.tokenIn == f.tokenIn && c.tokenOut == f.tokenOut && c.size == f.size && c.minOut == f.minOut && c.expiry == f.expiry
      && h in w.spends && w.spends[h] == NullifierOf(keccak, f.userSecret, f.nonce)
  {
    ExecutedIsSettled(env, w, h);
    var s, c := w.settlements[h], At(w, h);
    hide Visible, C.DcaInRange, C.DcaCommitmentHash, C.NullifierHash, C.AssertAddressField, Red;
    var wit := extract(s.proof, s.words);
    assert InField(s.words) && C.DcaMain(keccak, Public(s.words), wit);
    C.DcaBinding(keccak, Public(s.words), wit, f);
    Canonical(c.tokenIn);
    Canonical(c.tokenOut);
    Canonical(c.size);
    Canonical(c.minOut);
    Canonical(s.words.nullifier);
  }

  // The time and the feeds on record are those of the block in which the proof was accepted.
  lemma SettledNow(env: Env, w: World, h: Hash, nullifier: nat, proof: Proof, fillRef: nat)
    requires StartExecution(env, w, h, nullifier, proof, fillRef).Some?
    ensures var v := StartExecution(env, w, h, nullifier, proof, fillRef).value;
      h in v.settlements && v.settlements[h].time == w.now && v.settlements[h].feeds == w.feeds && v.settlements[h].proof == proof
  {
    hide Accepted;
  }

  // A commitment that becomes EXECUTED in a call, nested calls included, was settled in that block.
  lemma ExecutedInBlock(env: Env, w: World, op: Op, h: Hash)
    requires Reachable(env, w) && At(w, h).status != EXECUTED && At(After(env, w, op), h).status == EXECUTED
    ensures h in After(env, w, op).settlements && After(env, w, op).settlements[h].time == w.now
  {
    hide Reachable, Apply, CallPoints, SettledOn, Counted, Bijective, Funds, GasFunds;
    ReachableInv(env, w);
    CallKeeps(env, w, op);
    assert Booked(env, w, h) && Booked(env, After(env, w, op), h);
    assert SettledSince(w, After(env, w, op), h);
  }

  // An execution that succeeds has settled its own commitment on the feeds it found.
  lemma ExecutionSettles(env: Env, w: World, op: Op)
    requires Inv(env, w) && op.Execute? && Apply(env, w, op).Some?
    ensures var v := Apply(env, w, op).value;
      && op.hash in v.settlements && v.settlements[op.hash].time == w.now && v.settlements[op.hash].feeds == w.feeds
      && v.settlements[op.hash].proof == op.proof
  {
    hide Inv, RunScript, StartExecution, DebitGas, Progress;
    var h := op.hash;
    var v := StartExecution(env, w, h, op.nullifier, op.proof, op.fillRef).value;
    SettledNow(env, w, h, op.nullifier, op.proof, op.fillRef);
    StartExecutionKeeps(env, w, h, op.nullifier, op.proof, op.fillRef);
    StartExecutionGuards(env, w, h, op.nullifier, op.proof, op.fillRef);
    ScriptKeeps(env, v, op.swap);
    var swapped := RunScript(env, v, op.swap);
    StillExecuted(env, w, v, swapped, h, op.nullifier, op.proof, op.fillRef);
    var r := DebitKeeps(env, swapped, h, op.sender, op.gasSpent, op.script, op.accepts);
    var paid := DebitGas(env, swapped, h, At(swapped, h).owner, op.sender, op.gasSpent, op.script, op.accepts).value;
    assert Remembered(v, swapped, h) && Remembered(r, paid, h);
  }

  // So an order that is executed now is executed at a price, now on chain, on the committed side.
  lemma OrderExecutesAtLimit(env: Env, keccak: Circuits.Keccak, extract: (Proof, Words) -> C.OrderWitness,
                             w: World, op: Op, f: C.OrderFields)
    requires Reachable(env, w) && op.Execute? && Apply(env, w, op).Some? && At(Apply(env, w, op).value, op.hash).kind == ORDER_FILL
    requires ORDER_FILL in env.verifiers && OrderVerifierSound(keccak, env.verifiers[ORDER_FILL], extract)
    requires C.OrderInRange(f) && C.CommitmentHash(keccak, f) == Red(op.hash)
    requires var v := Apply(env, w, op).value;
      op.hash in v.settlements ==>
        OrderBound(keccak, f, v.settlements[op.hash].words, extract(v.settlements[op.hash].proof, v.settlements[op.hash].words))
    ensures var price := OraclePrice(w.feeds, f.tokenIn, f.tokenOut);
      && price.Some? && (if f.direction then price.value >= f.price else price.value <= f.price)
      && w.now <= f.expiry
  {
    hide Reachable, Apply, OrderVerifierSound, OrderBound, C.OrderInRange, C.CommitmentHash, C.NullifierHash, Red, OraclePrice;
    ReachableInv(env, w);
    ReachableAfter(env, w, op);
    ExecutionSettles(env, w, op);
    assert Visible(env, Apply(env, w, op).value);
    hide Visible, Inv;
    OrderSettledAtLimit(env, keccak, extract, Apply(env, w, op).value, op.hash, f);
  }

  // And a DCA round that becomes EXECUTED in a call does so in its window or shortly after.
  lemma DcaExecutesInWindow(env: Env, keccak: Circuits.Keccak, extract: (Proof, Words) -> C.DcaWitness,
                            w: World, op: Op, h: Hash, f: C.DcaFields)
    requires Reachable(env, w) && At(w, h).status != EXECUTED
    requires At(After(env, w, op), h).status == EXECUTED && At(After(env, w, op), h).kind == DCA
    requires DCA in env.verifiers && DcaVerifierSound(keccak, env.verifiers[DCA], extract)
    requires C.DcaInRange(f) && C.DcaCommitmentHash(keccak, f) == Red(h)
    requires var v := After(env, w, op);
      h in v.settlements ==> DcaBound(keccak, f, v.settlements[h].words, extract(v.settlements[h].proof, v.settlements[h].words))
    ensures f.scheduledLo <= w.now <= f.scheduledHi + 300 && w.now <= f.expiry
  {
    hide Reachable, After, DcaVerifierSound, DcaBound, C.DcaInRange, C.DcaCommitmentHash, C.NullifierHash, Red;
    ExecutedInBlock(env, w, op, h);
    ReachableAfter(env, w, op);
    assert Visible(env, After(env, w, op));
    hide Visible;
    DcaSettledInWindow(env, keccak, extract, After(env, w, op), h, f);
  }

  // Two executed orders never came from the same secret and nonce.
  lemma OneFillPerSecret(env: Env, keccak: Circuits.Keccak, extract: (Proof, Words) -> C.OrderWitness,
                         w: World, h: Hash, f: C.OrderFields, k: Hash, g: C.OrderFields)
    requires Visible(env, w) && ORDER_FILL in env.verifiers && OrderVerifierSound(keccak, env.verifiers[ORDER_FILL], extract)
    requires h in w.settlements && At(w, h).kind == ORDER_FILL && C.OrderInRange(f) && C.CommitmentHash(keccak, f) == Red(h)
    requires k in w.settlements && At(w, k).kind == ORDER_FILL && C.OrderInRange(g) && C.CommitmentHash(keccak, g) == Red(k)
    requires OrderBound(keccak, f, w.settlements[h].words, extract(w.settlements[h].proof, w.settlements[h].words))
    requires OrderBound(keccak, g, w.settlements[k].words, extract(w.settlements[k].proof, w.settlements[k].words))
    requires h != k
    ensures (f.userSecret, f.nonce) != (g.userSecret, g.nonce)
  {
    hide Visible, OrderVerifierSound, OrderBound, C.OrderInRange, C.CommitmentHash, C.NullifierHash, Red;
    OrderSettledAtLimit(env, keccak, extract, w, h, f);
    OrderSettledAtLimit(env, keccak, extract, w, k, g);
    NullifierBijection(env, w);
  }

  // Completeness of the order verifier: a proof made from a satisfying witness is accepted.
  ghost predicate OrderVerifierComplete(keccak: Circuits.Keccak, verifier: Verifier, prove: (Words, C.OrderWitness) -> Proof) {
    forall x, wit :: InField(x) && C.OrderMain(keccak, Public(x), wit) ==> verifier(prove(x, wit), x)
  }

  // The commitment is pending and was registered for this order.
  ghost predicate Committed(keccak: Circuits.Keccak, w: World, h: Hash, f: C.OrderFields) {
    var c := At(w, h);
    && c.status == PENDING && c.kind == ORDER_FILL && h == C.CommitmentHash(keccak, f).v as nat
    && c.tokenIn == f.tokenIn && c.tokenOut == f.tokenOut && c.size == f.size && c.minOut == f.minOut && c.expiry == f.expiry
  }

  // A commitment that was registered with an order's hash and fields is committed to that order,
  // and so it stays in every run for as long as it is pending.
  lemma RegisteredStaysCommitted(env: Env, keccak: Circuits.Keccak, w: World, sender: Address, f: C.OrderFields, steps: seq<Step>)
    requires Reachable(env, w)
    requires Apply(env, w, Register(sender, OrderFor(keccak, f))).Some?
    ensures var v, h := Apply(env, w, Register(sender, OrderFor(keccak, f))).value, OrderFor(keccak, f).hash;
      && Committed(keccak, v, h, f) && At(v, h).owner == sender
      && (At(Run(env, v, steps), h).status == PENDING ==>
            Committed(keccak, Run(env, v, steps), h, f) && At(Run(env, v, steps), h).owner == sender)
  {
    hide Reachable, Inv, Apply, Run, C.CommitmentHash, Credited, Debited;
    var o := OrderFor(keccak, f);
    RegistrationStores(env, w, sender, o);
    PendingIsTheSame(env, w, Register(sender, o), steps, o.hash);
  }

  function OrderFor(keccak: Circuits.Keccak, f: C.OrderFields): Order {
    Order(C.CommitmentHash(keccak, f).v as nat, f.tokenIn, f.tokenOut, f.size, f.minOut, f.expiry, ORDER_FILL)
  }

  lemma PendingIsTheSame(env: Env, w: World, op: Op, steps: seq<Step>, h: Hash)
    requires Reachable(env, w) && Apply(env, w, op).Some? && At(Apply(env, w, op).value, h).status == PENDING
    ensures var v := Apply(env, w, op).value;
      At(Run(env, v, steps), h).status == PENDING ==> At(Run(env, v, steps), h) == At(v, h)
  {
    hide Reachable, Inv, Run, Apply;
    var v := After(env, w, op);
    ReachableAfter(env, w, op);
    ReachableInv(env, v);
    RunKeeps(env, v, steps);
    assert Progress(At(v, h), At(Run(env, v, steps), h));
  }

  function NullifierOf(keccak: Circuits.Keccak, userSecret: nat, nonce: nat): nat {
    C.NullifierHash(keccak, userSecret, nonce).v as nat
  }

  function PriceFor(w: World, h: Hash): Option<nat> {
    OraclePrice(w.feeds, At(w, h).tokenIn, At(w, h).tokenOut)
  }

  function OwnWords(keccak: Circuits.Keccak, w: World, h: Hash, f: C.OrderFields): Words {
    WordsFor(h, if PriceFor(w, h).Some? then PriceFor(w, h).value else 0, NullifierOf(keccak, f.userSecret, f.nonce), At(w, h))
  }

  // An execution of a pending order with its owner's proof succeeds exactly when no fill reference
  // is given, the registry is not paused, the order has not expired, its nullifier is unspent, there is a price on the
  // committed side of the limit, the swap succeeds, and the reimbursement is not owed or can be paid.
  lemma HonestOrderExecutesIff(env: Env, keccak: Circuits.Keccak, prove: (Words, C.OrderWitness) -> Proof,
                               extract: (Proof, Words) -> C.OrderWitness, w: World, op: Op, f: C.OrderFields)
    requires Inv(env, w) && !w.entered && op.Execute? && op.sender !in env.Protocol() && Committed(keccak, w, op.hash, f)
    requires op.nullifier == NullifierOf(keccak, f.userSecret, f.nonce)
    requires op.proof == prove(OwnWords(keccak, w, op.hash, f), C.OwnWitness(f))
    requires C.OrderInRange(f) && C.BelowModulus(f.size, f.minOut, f.nonce, f.userSecret)
    requires ORDER_FILL in env.verifiers && OrderVerifierSound(keccak, env.verifiers[ORDER_FILL], extract)
    requires OrderVerifierComplete(keccak, env.verifiers[ORDER_FILL], prove)
    requires var x := OwnWords(keccak, w, op.hash, f); OrderBound(keccak, f, x, extract(prove(x, C.OwnWitness(f)), x))
    ensures Apply(env, w, op).Some? <==> op.fillRef == 0 && Fillable(w, op.hash, f, op.nullifier) && Concluded(env, w, op)
  {
    hide Inv, Apply, StartExecution, Accepted, Reimbursable, OrderVerifierSound, OrderVerifierComplete, OrderBound,
      C.OrderInRange, Committed, NullifierOf, OwnWords, OraclePrice;
    ExecutionStartsIff(env, w, op.hash, op.nullifier, op.proof, op.fillRef);
    OwnAccepted(env, keccak, w, op.hash, f, op.proof, op.fillRef);
    if PriceFor(w, op.hash).Some? {
      OwnProofAccepted(env, keccak, prove, extract, w, op.hash, f);
    }
    ExecutionSucceedsIff(env, w, op);
  }

  ghost predicate Fillable(w: World, h: Hash, f: C.OrderFields, nullifier: nat) {
    && !w.paused && w.now <= f.expiry && nullifier !in w.nullifiers
    && PriceFor(w, h).Some? && (if f.direction then PriceFor(w, h).value >= f.price else PriceFor(w, h).value <= f.price)
  }

  // Once started, the execution goes through.
  ghost predicate Concluded(env: Env, w: World, op: Op)
    requires op.Execute?
  {
    StartExecution(env, w, op.hash, op.nullifier, op.proof, op.fillRef).Some? ==>
      op.swapSucceeds && (op.sender == At(w, op.hash).owner || Reimbursable(env, w, op))
  }

  lemma OwnAccepted(env: Env, keccak: Circuits.Keccak, w: World, h: Hash, f: C.OrderFields, proof: Proof, fillRef: nat)
    requires Committed(keccak, w, h, f) && ORDER_FILL in env.verifiers
    ensures Accepted(env, w, h, NullifierOf(keccak, f.userSecret, f.nonce), proof, fillRef).Some?
      <==> && fillRef == 0 && w.now <= f.expiry && NullifierOf(keccak, f.userSecret, f.nonce) !in w.nullifiers && PriceFor(w, h).Some?
           && env.verifiers[ORDER_FILL](proof, OwnWords(keccak, w, h, f))
  {
    hide OraclePrice, C.CommitmentHash, C.NullifierHash;
  }

  lemma OwnProofAccepted(env: Env, keccak: Circuits.Keccak, prove: (Words, C.OrderWitness) -> Proof,
                         extract: (Proof, Words) -> C.OrderWitness, w: World, h: Hash, f: C.OrderFields)
    requires Committed(keccak, w, h, f) && PriceFor(w, h).Some?
    requires C.OrderInRange(f) && C.BelowModulus(f.size, f.minOut, f.nonce, f.userSecret)
    requires ORDER_FILL in env.verifiers && OrderVerifierSound(keccak, env.verifiers[ORDER_FILL], extract)
    requires OrderVerifierComplete(keccak, env.verifiers[ORDER_FILL], prove)
    requires var x := OwnWords(keccak, w, h, f); OrderBound(keccak, f, x, extract(prove(x, C.OwnWitness(f)), x))
    ensures env.verifiers[ORDER_FILL](prove(OwnWords(keccak, w, h, f), C.OwnWitness(f)), OwnWords(keccak, w, h, f))
      <==> if f.direction then PriceFor(w, h).value >= f.price else PriceFor(w, h).value <= f.price
  {
    var x, p := OwnWords(keccak, w, h, f), PriceFor(w, h).value;
    PriceFits(w, h);
    OwnPublic(keccak, w, h, f);
    hide OraclePrice, C.CommitmentHash, C.NullifierHash, C.OrderInRange, C.OrderMain, Red, OwnWords, PriceFor, Public;
    C.HonestOrderProvesIff(keccak, f, p);
    if env.verifiers[ORDER_FILL](prove(x, C.OwnWitness(f)), x) {
      assert C.OrderMain(keccak, Public(x), extract(prove(x, C.OwnWitness(f)), x));
      C.OrderBinding(keccak, Public(x), extract(prove(x, C.OwnWitness(f)), x), f);
    }
  }

  lemma PriceFits(w: World, h: Hash)
    requires PriceFor(w, h).Some?
    ensures PriceFor(w, h).value < Circuits.TWO_64
  {}

  // The owner's words are the honest inputs of the circuit.
  lemma OwnPublic(keccak: Circuits.Keccak, w: World, h: Hash, f: C.OrderFields)
    requires Committed(keccak, w, h, f) && PriceFor(w, h).Some? && C.OrderInRange(f)
    requires C.BelowModulus(f.size, f.minOut, f.nonce, f.userSecret)
    ensures InField(OwnWords(keccak, w, h, f))
    ensures Public(OwnWords(keccak, w, h, f)).fillRef == PriceFor(w, h).value
    ensures Public(OwnWords(keccak, w, h, f)).commitmentHash == C.CommitmentHash(keccak, f)
    ensures Public(OwnWords(keccak, w, h, f))
      == C.HonestInputs(C.CommitmentHash(keccak, f), C.NullifierHash(keccak, f.userSecret, f.nonce),
                        f.tokenIn, f.tokenOut, f.size, f.minOut, f.expiry, PriceFor(w, h).value)
  {
    hide OraclePrice, C.CommitmentHash, C.NullifierHash;
  }

  // The same for a DCA round.

  ghost predicate DcaVerifierComplete(keccak: Circuits.Keccak, verifier: Verifier, prove: (Words, C.DcaWitness) -> Proof) {
    forall x, wit :: InField(x) && C.DcaMain(keccak, Public(x), wit) ==> verifier(prove(x, wit), x)
  }

  ghost predicate DcaCommitted(keccak: Circuits.Keccak, w: World, h: Hash, f: C.DcaFields) {
    var c := At(w, h);
    && c.status == PENDING && c.kind == DCA && h == C.DcaCommitmentHash(keccak, f).v as nat
    && c.tokenIn == f.tokenIn && c.tokenOut == f.tokenOut && c.size == f.size && c.minOut == f.minOut && c.expiry == f.expiry
  }

  // A DCA round is registered in a batch: each item with a round's hash and fields is committed to
  // that round for as long as it is pending.
  lemma RegisteredRoundsStayCommitted(env: Env, keccak: Circuits.Keccak, w: World, sender: Address, b: Batch,
                                      i: nat, f: C.DcaFields, steps: seq<Step>)
    requires Reachable(env, w) && Apply(env, w, RegisterBatch(sender, b)).Some?
    requires SameLengths(b) && i < |b.hashes| && IsRound(keccak, b, i, f)
    ensures var v, h := Apply(env, w, RegisterBatch(sender, b)).value, b.hashes[i];
      && DcaCommitted(keccak, v, h, f) && At(v, h).owner == sender
      && (At(Run(env, v, steps), h).status == PENDING ==>
            DcaCommitted(keccak, Run(env, v, steps), h, f) && At(Run(env, v, steps), h).owner == sender)
  {
    hide Reachable, Inv, Apply, Run, C.DcaCommitmentHash;
    BatchStores(env, w, sender, b);
    assert HoldsItem(Apply(env, w, RegisterBatch(sender, b)).value, sender, b, i);
    PendingIsTheSame(env, w, RegisterBatch(sender, b), steps, b.hashes[i]);
  }

  ghost predicate IsRound(keccak: Circuits.Keccak, b: Batch, i: nat, f: C.DcaFields)
    requires SameLengths(b) && i < |b.hashes|
  {
    && b.kind == DCA && b.hashes[i] == C.DcaCommitmentHash(keccak, f).v as nat
    && b.tokenIn == f.tokenIn && b.tokenOut == f.tokenOut
    && b.sizes[i] == f.size && b.minOuts[i] == f.minOut && b.expiries[i] == f.expiry
  }

  // The owner's words for the time t
  function OwnDcaWords(keccak: Circuits.Keccak, w: World, h: Hash, f: C.DcaFields, t: nat): Words {
    WordsFor(h, t, NullifierOf(keccak, f.userSecret, f.nonce), At(w, h))
  }

  ghost predicate DcaFillable(w: World, f: C.DcaFields, nullifier: nat, t: nat) {
    && !w.paused && w.now <= f.expiry && nullifier !in w.nullifiers
    && t <= w.now <= t + DCA_FILL_REF_MAX_AGE && f.scheduledLo <= t <= f.scheduledHi && t < f.expiry
  }

  // Some time can be proven for exactly when the present is in the window or shortly after it: the
  // bound of DcaExecutesInWindow cannot be made smaller.
  lemma DcaFillableIff(w: World, f: C.DcaFields, nullifier: nat)
    ensures (exists t :: DcaFillable(w, f, nullifier, t)) <==>
      && !w.paused && nullifier !in w.nullifiers && w.now <= f.expiry
      && f.scheduledLo <= w.now <= f.scheduledHi + 300
      && f.scheduledLo <= f.scheduledHi && f.scheduledLo < f.expiry
  {
    var t := if f.scheduledLo + DCA_FILL_REF_MAX_AGE >= w.now then f.scheduledLo else w.now - DCA_FILL_REF_MAX_AGE;
    if DcaFillable(w, f, nullifier, t) {}
  }

  // An execution of a pending round with its owner's proof for the time t succeeds exactly when the
  // registry is not paused, the round has not expired, its nullifier is unspent, t is at most
  // DCA_FILL_REF_MAX_AGE old, in the committed window and before the expiry, and the rest goes through.
  lemma HonestDcaExecutesIff(env: Env, keccak: Circuits.Keccak, prove: (Words, C.DcaWitness) -> Proof,
                             extract: (Proof, Words) -> C.DcaWitness, w: World, op: Op, f: C.DcaFields)
    requires Inv(env, w) && !w.entered && op.Execute? && op.sender !in env.Protocol() && DcaCommitted(keccak, w, op.hash, f)
    requires op.nullifier == NullifierOf(keccak, f.userSecret, f.nonce)
    requires op.proof == prove(OwnDcaWords(keccak, w, op.hash, f, op.fillRef), C.OwnDcaWitness(f))
    requires C.DcaInRange(f) && C.BelowModulus(f.size, f.minOut, f.nonce, f.userSecret)
    requires DCA in env.verifiers && DcaVerifierSound(keccak, env.verifiers[DCA], extract)
    requires DcaVerifierComplete(keccak, env.verifiers[DCA], prove)
    requires var x := OwnDcaWords(keccak, w, op.hash, f, op.fillRef); DcaBound(keccak, f, x, extract(op.proof, x))
    ensures Apply(env, w, op).Some? <==> DcaFillable(w, f, op.nullifier, op.fillRef) && Concluded(env, w, op)
  {
    hide Inv, Apply, StartExecution, Accepted, Reimbursable, DcaVerifierSound, DcaVerifierComplete, DcaBound,
      C.DcaInRange, DcaCommitted, NullifierOf, OwnDcaWords;
    ExecutionStartsIff(env, w, op.hash, op.nullifier, op.proof, op.fillRef);
    OwnDcaAccepted(env, keccak, w, op.hash, f, op.proof, op.fillRef);
    OwnDcaProofAccepted(env, keccak, prove, extract, w, op.hash, f, op.fillRef);
    ExecutionSucceedsIff(env, w, op);
  }

  lemma OwnDcaAccepted(env: Env, keccak: Circuits.Keccak, w: World, h: Hash, f: C.DcaFields, proof: Proof, t: nat)
    requires DcaCommitted(keccak, w, h, f) && DCA in env.verifiers
    ensures Accepted(env, w, h, NullifierOf(keccak, f.userSecret, f.nonce), proof, t).Some?
      <==> && w.now <= f.expiry && NullifierOf(keccak, f.userSecret, f.nonce) !in w.nullifiers
           && t <= w.now <= t + DCA_FILL_REF_MAX_AGE && env.verifiers[DCA](proof, OwnDcaWords(keccak, w, h, f, t))
  {
    hide C.DcaCommitmentHash, C.NullifierHash;
  }

  lemma OwnDcaProofAccepted(env: Env, keccak: Circuits.Keccak, prove: (Words, C.DcaWitness) -> Proof,
                            extract: (Proof, Words) -> C.DcaWitness, w: World, h: Hash, f: C.DcaFields, t: nat)
    requires DcaCommitted(keccak, w, h, f)
    requires C.DcaInRange(f) && C.BelowModulus(f.size, f.minOut, f.nonce, f.userSecret)
    requires DCA in env.verifiers && DcaVerifierSound(keccak, env.verifiers[DCA], extract)
    requires DcaVerifierComplete(keccak, env.verifiers[DCA], prove)
    requires var x := OwnDcaWords(keccak, w, h, f, t); DcaBound(keccak, f, x, extract(prove(x, C.OwnDcaWitness(f)), x))
    ensures env.verifiers[DCA](prove(OwnDcaWords(keccak, w, h, f, t), C.OwnDcaWitness(f)), OwnDcaWords(keccak, w, h, f, t))
      <==> f.scheduledLo <= t <= f.scheduledHi && t < f.expiry
  {
    var x := OwnDcaWords(keccak, w, h, f, t);
    OwnDcaPublic(keccak, w, h, f, t);
    if t < Circuits.TWO_64 { C.HonestDcaProvesIff(keccak, f, t); }
    hide C.DcaCommitmentHash, C.NullifierHash, C.DcaMain, Red, OwnDcaWords, Public;
    if env.verifiers[DCA](prove(x, C.OwnDcaWitness(f)), x) {
      assert C.DcaMain(keccak, Public(x), extract(prove(x, C.OwnDcaWitness(f)), x));
      C.DcaBinding(keccak, Public(x), extract(prove(x, C.OwnDcaWitness(f)), x), f);
    }
  }

  lemma OwnDcaPublic(keccak: Circuits.Keccak, w: World, h: Hash, f: C.DcaFields, t: nat)
    requires DcaCommitted(keccak, w, h, f) && C.DcaInRange(f) && C.BelowModulus(f.size, f.minOut, f.nonce, f.userSecret)
    ensures InField(OwnDcaWords(keccak, w, h, f, t))
    ensures Public(OwnDcaWords(keccak, w, h, f, t)).fillRef == t
    ensures Public(OwnDcaWords(keccak, w, h, f, t)).commitmentHash == C.DcaCommitmentHash(keccak, f)
    ensures Public(OwnDcaWords(keccak, w, h, f, t))
      == C.HonestInputs(C.DcaCommitmentHash(keccak, f), C.NullifierHash(keccak, f.userSecret, f.nonce),
                        f.tokenIn, f.tokenOut, f.size, f.minOut, f.expiry, t)
  {
    hide C.DcaCommitmentHash, C.NullifierHash;
  }

  // Once another commitment has spent the nullifier of an order's secret and nonce, no run executes
  // the order any more, with whatever proof or nullifier.
  lemma SpentNullifierBlocks(env: Env, keccak: Circuits.Keccak, extract: (Proof, Words) -> C.OrderWitness,
                             w: World, steps: seq<Step>, k: Hash, h: Hash, f: C.OrderFields)
    requires Reachable(env, w) && k != h && SpentBy(w, NullifierOf(keccak, f.userSecret, f.nonce), k)
    requires ORDER_FILL in env.verifiers && OrderVerifierSound(keccak, env.verifiers[ORDER_FILL], extract)
    requires C.OrderInRange(f) && C.CommitmentHash(keccak, f) == Red(h)
    requires At(Run(env, w, steps), h).kind == ORDER_FILL && NoForgery(keccak, extract, Run(env, w, steps), h, f)
    ensures At(Run(env, w, steps), h).status != EXECUTED
  {
    hide Reachable, Inv, CallPoints, Run, OrderVerifierSound, OrderBound, C.OrderInRange, C.CommitmentHash, Red, NullifierOf;
    var v := Run(env, w, steps);
    ReachableInv(env, w);
    RunKeeps(env, w, steps);
    assert Remembered(w, v, k);
    ReachableRun(env, w, steps);
    assert Visible(env, v);
    hide Visible;
    if At(v, h).status == EXECUTED {
      ExecutedIsSettled(env, v, h);
      OrderSettledAtLimit(env, keccak, extract, v, h, f);
      NullifierBijection(env, v);
    }
  }

  // If h was settled, the proof was not made from another order whose preimage collides with f's.
  ghost predicate NoForgery(keccak: Circuits.Keccak, extract: (Proof, Words) -> C.OrderWitness, w: World, h: Hash,
                            f: C.OrderFields) {
    h in w.settlements ==> OrderBound(keccak, f, w.settlements[h].words, extract(w.settlements[h].proof, w.settlements[h].words))
  }

  // cancelCommitment takes any unspent nullifier. Whoever has a pending commitment k and knows the
  // nullifier of a pending order h can cancel k with it: h stays as it is, and no run executes it any more.
  lemma CancelSpendsGivenNullifier(env: Env, keccak: Circuits.Keccak, extract: (Proof, Words) -> C.OrderWitness,
                                   w: World, k: Hash, h: Hash, f: C.OrderFields, steps: seq<Step>)
    requires Reachable(env, w) && k != h && At(w, k).status == PENDING && At(w, h).status == PENDING && At(w, h).kind == ORDER_FILL
    requires NullifierOf(keccak, f.userSecret, f.nonce) !in w.nullifiers
    requires ORDER_FILL in env.verifiers && OrderVerifierSound(keccak, env.verifiers[ORDER_FILL], extract)
    requires C.OrderInRange(f) && C.CommitmentHash(keccak, f) == Red(h)
    ensures var cancel := Cancel(At(w, k).owner, k, NullifierOf(keccak, f.userSecret, f.nonce));
      var v := After(env, w, cancel);
      && Apply(env, w, cancel).Some? && At(v, h) == At(w, h)
      && (NoForgery(keccak, extract, Run(env, v, steps), h, f) ==> At(Run(env, v, steps), h).status != EXECUTED)
  {
    var n := NullifierOf(keccak, f.userSecret, f.nonce);
    var cancel := Cancel(At(w, k).owner, k, n);
    hide Reachable, Inv, NullifierOf, OrderVerifierSound, NoForgery, C.OrderInRange, C.CommitmentHash, Red, Run, Apply;
    ReachableInv(env, w);
    CancelElsewhere(env, w, k, n, h);
    var v := After(env, w, cancel);
    ReachableAfter(env, w, cancel);
    if NoForgery(keccak, extract, Run(env, v, steps), h, f) {
      ReachableInv(env, v);
      RunKeeps(env, v, steps);
      assert Progress(At(v, h), At(Run(env, v, steps), h));
      SpentNullifierBlocks(env, keccak, extract, v, steps, k, h, f);
    }
  }

  lemma CancelElsewhere(env: Env, w: World, k: Hash, n: nat, h: Hash)
    requires Inv(env, w) && !w.entered && k != h && At(w, k).status == PENDING && n !in w.nullifiers
    ensures var cancel := Cancel(At(w, k).owner, k, n);
      Apply(env, w, cancel).Some? && SpentBy(After(env, w, cancel), n, k) && At(After(env, w, cancel), h) == At(w, h)
  {
    PendingRecord(env, w, k);
    CancelSucceedsIff(env, w, At(w, k).owner, k, n);
    hide Inv;
  }
}
