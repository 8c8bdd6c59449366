# Verification of the zstrategy settlement path

zstrategy lets a user commit to a trading strategy by a hash, lock the collateral on chain, and have
a keeper execute it later with a zero-knowledge proof that the hidden condition is met. This project
models, in Dafny, the parts of that system on which money and correctness depend, and proves their
properties for every input, every run and every interleaving.

- **The UltraHonk verifier.** The scalar field (`PrimeField`, `Fermat`), polynomials (`Polynomial`,
  `Multilinear`), sumcheck with its hard-coded barycentric denominators (`Barycentric`, `Sumcheck`,
  `SumcheckCounting`), the power polynomial and the batching challenges (`PowerPolynomial`), the factor
  that masks the last rows (`RowDisabling`), the Gemini fold reconstruction (`Gemini`), and the proof
  parser with its separately written size formula and its byte offsets (`ProofCodec`, `ProofLoader`,
  `ProofLayout`). `Honk` holds the sizes. `logN` is a parameter from 1 to 25. That the
  modulus is prime is a hypothesis wherever a proof divides.
- **The on-chain ledger.** `Ledger` gives each call of the registry and the two vaults as a function
  of the whole state, with `None` for a revert. A call that hands control to the outside (the swap, a
  payment of ETH) carries the calls the outside makes before it returns, so re-entrancy is part of
  every statement. `Contracts` has the same contracts as classes updated in place, proved against
  those functions. `LedgerInvariant`, `LedgerSweep` and `LedgerTheorems` prove what holds in every run
  and at every point where somebody outside can look; `LedgerEffects` says what each call stores,
  moves and pays to whom; `LedgerClaims` and `LedgerGas` prove that nobody can lower what another user
  owns. Events and settlements are kept as history.
- **The backend.** `Indexer` and `Monitor` are the locked sections as class methods; `IndexerRuns`
  and `MonitorRuns` interleave them, one database call, locked section or channel operation a step;
  `MonitorDone` says when a finished row stays finished. Chain events are handled one at a time by a
  single goroutine (backend/internal/indexer/chain.go:65-78, 112-114, backend/cmd/server/main.go:86);
  waiters come from any number of requests.
- **Encodings, prices, rate limit.** `Bytes`, `Packed`, `Circuits` and `Commitments` relate the Noir
  loops to the packed encodings; `Price` relates the three derivations of the pair price;
  `RateLimiter` is the token bucket with its background eviction.
- **Across components.** `Settlement` composes ledger and circuits: what an execution says about the
  strategy the owner committed to. `FillCondition` compares when the monitor fires with what the
  circuits let the keeper prove.

Hypotheses are explicit in the statements. A verifier is sound when everything it accepts has its
words below the field modulus and yields a satisfying circuit witness, and complete when it accepts the
proofs made from satisfying witnesses. keccak256 is an arbitrary
function; the only thing asked of it is that the owner's preimage and the preimage of that one witness
do not collide. Tokens are standard EIP-20 tokens without transfer fees, with a supply below 2^256.

Where the code and its comments differ, the model follows the code:

- `_readOraclePrice` is commented as validating freshness, but those checks are commented out
  (contracts/contracts/core/CommitmentRegistry.sol:328, 340-345); no freshness is claimed.
- `minOut` is documented as slippage protection, but the adapter passes 0
  (contracts/contracts/adapters/UniswapV3Adapter.sol:48-49); the swap is an arbitrary call.
- The monitor's comment takes DONE for final (backend/internal/service/monitor.go:34-38). It is not:
  `MonitorDone.DoneRevived` and `MonitorDone.SweeperRevives` are runs that leave it, and
  `MonitorDone.DoneIsFinalIff` says from which states no run does. That a duplicate trigger is
  harmless on chain is proved (`LedgerTheorems.CollateralMovesOnce`).
- The monitor and the contract accept a DCA round in the second of its expiry, the circuit does not
  (circuits/dca/src/main.nr:151); `FillCondition.DcaAgreesIff` says for which committed windows that
  second matters, and `FillCondition.ScheduledRoundsAgree` that it never does for the frontend's rounds.
- `cancelCommitment` is documented as taking the nullifier of the commitment
  (contracts/contracts/core/CommitmentRegistry.sol:367), but takes any unspent one;
  `Settlement.CancelSpendsGivenNullifier` states what that means for another commitment.
- `fillRef` is documented as ignored for orders (contracts/contracts/core/CommitmentRegistry.sol:256),
  but an order is refused unless it is zero (line 288).

## Model

| member | source | states |
|---|---|---|
| PrimeField.OperationsAreModular | contracts/contracts/core/OrderFillVerifier.sol:286-302 | `add`, `mul` and `sub` are addmod, mulmod and the addmod of the complement, modulo the group order |
| PrimeField.Ring | contracts/contracts/core/OrderFillVerifier.sol:286-302 | the three operations are ring operations: each is the residue of the integer operation |
| PrimeField.NoZeroDivisors | contracts/contracts/core/OrderFillVerifier.sol:173 | with a prime modulus a product is zero only if a factor is |
| Fermat.InvertCorrect | contracts/contracts/core/OrderFillVerifier.sol:185-210 | `invert` reverts exactly on zero, and otherwise its one power of the modulus minus two is the multiplicative inverse (proved from primality, through Fermat) |
| Barycentric.DenominatorsCorrect | contracts/contracts/core/OrderFillVerifier.sol:2065-2075 | each of the nine literals is the product of the differences of its node to the other eight, and is not zero |
| Barycentric.InterpolantUnique | contracts/contracts/core/OrderFillVerifier.sol:2077-2096 | a polynomial with nine coefficients is determined everywhere by its values at 0..8 |
| Barycentric.ComputeNextTargetSum | contracts/contracts/core/OrderFillVerifier.sol:2060-2097 | reverts exactly when the challenge is one of 0..8, and otherwise returns the value at the challenge of the degree-8 polynomial through the nine sent values |
| RowDisabling.UnmaskedIsMle | contracts/contracts/core/OrderFillVerifier.sol:2049-2056 | for every u with two or more coordinates, one minus the product of the coordinates from the third on is the multilinear extension, at u, of the table that is zero in its last four rows and one in all others |
| Sumcheck.VerifySumcheck | contracts/contracts/core/OrderFillVerifier.sol:2020-2057 | for every number of rounds from 1 to 25: reverts exactly when a round sum is wrong or a challenge is a node; with the powers of beta as gate challenges it returns true exactly when the rounds pass and the last target is the relation, of the 41 entity evaluations and the multilinear extension of the powers of beta, times that of the table that is zero in its last four rows, plus the libra evaluation times the libra challenge |
| Sumcheck.PartialSumLowDegree | contracts/contracts/core/OrderFillVerifier.sol:2025-2036 | summing a polynomial of degree at most 8 per variable over the later hypercube leaves one of degree at most 8 in the bound variable |
| Sumcheck.Completeness | contracts/contracts/core/OrderFillVerifier.sol:2025-2036 | for every such polynomial and all challenges that are no nodes, the honest univariates pass every round and the target after the last is the polynomial at the challenges |
| Sumcheck.FewLuckyChallenges | contracts/contracts/core/OrderFillVerifier.sol:2060-2097 | a sent univariate other than the honest one agrees with it at no more than eight challenges |
| Sumcheck.Soundness | contracts/contracts/core/OrderFillVerifier.sol:2020-2036 | when the claimed total is wrong, every round passes and the last target is the polynomial at the challenges, then some round sent a wrong univariate that meets the honest one at its challenge, and at most eight challenges do that |
| Sumcheck.VerifierComplete | contracts/contracts/core/OrderFillVerifier.sol:2020-2057 | completeness of the whole check, for honest univariates |
| Sumcheck.VerifierSound | contracts/contracts/core/OrderFillVerifier.sol:2020-2057 | soundness of the whole check: an accepted wrong total names a lucky round |
| SumcheckCounting.FewConvincingVectors | contracts/contracts/core/OrderFillVerifier.sol:2020-2036 | for every strategy of a prover that chooses each univariate knowing the earlier challenges, and every false total, at most 8 n p^(n-1) of the p^n challenge vectors pass every round and end with the target the polynomial has at the challenges (p the group order) |
| SumcheckCounting.FewAcceptedVectors | contracts/contracts/core/OrderFillVerifier.sol:2020-2057 | the same bound for the challenge vectors on which the whole check accepts the proofs of such a prover, when the final value is the polynomial at the challenges |
| PowerPolynomial.GenerateGateChallenges | contracts/contracts/core/OrderFillVerifier.sol:638-649 | the array holds beta to the powers 1, 2, 4, ... and zeros after logN |
| PowerPolynomial.PowerPolynomialIsSum | contracts/contracts/core/OrderFillVerifier.sol:2034-2035 | the running product of sumcheck is the sum over the hypercube of beta to the index, times the product of the eq factors |
| PowerPolynomial.PowerPolynomialOfTranscript | contracts/contracts/core/OrderFillVerifier.sol:2025-2035 | what sumcheck passes to the relation is that sum in the first logN challenges, for the arrays of the transcript with their entries after logN |
| PowerPolynomial.GenerateAlphaChallenges | contracts/contracts/core/OrderFillVerifier.sol:628-635 | the array holds the powers 1..27 of alpha |
| PowerPolynomial.ScaleAndBatchSubrelations | contracts/contracts/core/OrderFillVerifier.sol:1558-1567 | with those powers the accumulator is the polynomial whose coefficients are the subrelation values, at alpha |
| Gemini.ComputeSquares | contracts/contracts/core/OrderFillVerifier.sol:1623-1630 | the array holds r to the powers 1, 2, 4, ... |
| Gemini.ComputeFoldPosEvaluations | contracts/contracts/core/OrderFillVerifier.sol:1600-1621 | reverts exactly when some divisor is zero, and otherwise every round value times its divisor is its dividend |
| Gemini.FullFoldIsMle | contracts/contracts/core/OrderFillVerifier.sol:1599-1616 | folding every variable of a table leaves its multilinear extension at the challenges |
| Gemini.HonestRound | contracts/contracts/core/OrderFillVerifier.sol:1609-1615 | for a polynomial, the dividend of a round on the true values is the value at the positive point times the divisor |
| Gemini.FoldReconstruction | contracts/contracts/core/OrderFillVerifier.sol:1600-1621 | from the true values at the negative points and the multilinear evaluation, any solution of the rounds is the list of true values at the positive points |
| Gemini.ReconstructFolds | contracts/contracts/core/OrderFillVerifier.sol:1599-1630 | squares and backward loop together return the true fold values at r to the powers 1, 2, 4, ... for every table and every number of variables, and revert exactly when a divisor is zero |
| ProofCodec.PrintOfRead | contracts/contracts/core/OrderFillVerifier.sol:1637-1654 | whatever a field is read as is in range and prints to the bytes it was read from |
| ProofCodec.ReadOfPrinted | contracts/contracts/core/OrderFillVerifier.sol:1637-1654 | every field in range is read back from its printed bytes |
| ProofCodec.LayoutSize | contracts/contracts/core/OrderFillVerifier.sol:2430-2452 | for every logN from 1 to 25 the printed layout has exactly the number of bytes of the size formula |
| ProofLayout.HeadOffsets | contracts/contracts/core/OrderFillVerifier.sol:764-801 | the eight pairing limbs, ten leading commitments and the libra sum stand at bytes 32i, 256+64i and 896 |
| ProofLayout.SumcheckOffsets | contracts/contracts/core/OrderFillVerifier.sol:802-819 | univariate value j of round i stands at byte 928+288i+32j, the 42 evaluations and the libra evaluation after them |
| ProofLayout.GeminiOffsets | contracts/contracts/core/OrderFillVerifier.sol:821-837 | the other two libra commitments, the logN-1 fold commitments and the logN fold evaluations stand at the stated bytes |
| ProofLayout.OpeningOffsets | contracts/contracts/core/OrderFillVerifier.sol:839-848 | the libra evaluations and the two opening commitments stand at the stated bytes, and the proof ends at 2624+384 logN |
| ProofLayout.InBounds | contracts/contracts/core/OrderFillVerifier.sol:767-774 | the limbs are below 2^136 and 2^120 in turn, and no point is at infinity or out of the base field |
| ProofCodec.PrintInjective | contracts/contracts/core/OrderFillVerifier.sol:764-849 | no two valid proofs print to the same bytes |
| ProofLoader.LoadProof | contracts/contracts/core/OrderFillVerifier.sol:764-849 | returns a valid proof whose printed form, of exactly the formula's size, the bytes begin with; reverts exactly when no valid proof prints to a prefix of them |
| ProofLoader.LoadExact | contracts/contracts/core/OrderFillVerifier.sol:1941-1957 | with the length check of `verify`, parsing is the two-sided inverse of printing |
| Contracts.Chain.Call | contracts/contracts/core/CommitmentRegistry.sol:158-429 | one external call of the system, dispatched to the contracts, does what the ledger function `Apply` says, and on a revert changes nothing |
| Contracts.Chain.Outside | contracts/contracts/core/CommitmentRegistry.sol:308-321 | whoever has control during a swap or a payment makes any calls it likes, of which those that revert change nothing |
| Contracts.CollateralVault.Deposit | contracts/contracts/core/CollateralVault.sol:60-65 | moves the tokens in and credits the sender; reverts, changing nothing, on a zero amount, a failed transfer or an overflow |
| Contracts.CollateralVault.Withdraw | contracts/contracts/core/CollateralVault.sol:68-74 | debits the sender and moves the tokens out, or changes nothing |
| Contracts.CollateralVault.LockCollateral | contracts/contracts/core/CollateralVault.sol:80-90 | registry only: moves an amount from the free balance to the lock of a commitment, or changes nothing |
| Contracts.CollateralVault.ReleaseForExecution | contracts/contracts/core/CollateralVault.sol:94-104 | registry only: takes an amount out of the lock and moves the tokens to the adapter, or changes nothing |
| Contracts.CollateralVault.ReturnCollateral | contracts/contracts/core/CollateralVault.sol:108-118 | registry only: moves an amount from the lock back to a free balance, or changes nothing |
| Contracts.GasVault.Deposit | contracts/contracts/core/GasVault.sol:61-71 | `deposit` and `receive`: credits the value received |
| Contracts.GasVault.Withdraw | contracts/contracts/core/GasVault.sol:74-81 | debits the sender and pays out under the re-entrancy guard while the recipient runs any calls; undone when the recipient refuses |
| Contracts.GasVault.Debit | contracts/contracts/core/GasVault.sol:89-100 | registry only: the same payout, from a user to a keeper |
| Contracts.CommitmentRegistry.RegisterCommitment | contracts/contracts/core/CommitmentRegistry.sol:158-196 | stores the record and locks its size exactly when all the checks and the lock succeed, and otherwise changes nothing |
| Contracts.CommitmentRegistry.RegisterCommitmentBatch | contracts/contracts/core/CommitmentRegistry.sol:200-244 | the loop registers all the items or changes nothing |
| Contracts.CommitmentRegistry.CheckExecution | contracts/contracts/core/CommitmentRegistry.sol:264-299 | the fill reference the proof was checked against, or none when a check of `executeCommitment` fails |
| Contracts.CommitmentRegistry.ExecuteCommitment | contracts/contracts/core/CommitmentRegistry.sol:257-324 | checks, marks, releases, swaps with re-entrant calls, and reimburses; a failure in any part undoes all of it |
| Contracts.CommitmentRegistry.DebitGas | contracts/contracts/core/CommitmentRegistry.sol:485-489 | skipped for the owner; otherwise 120% of the gas cost from the owner's prepaid balance |
| Contracts.CommitmentRegistry.CancelCommitment | contracts/contracts/core/CommitmentRegistry.sol:368-381 | by the owner of a pending commitment, with an unspent nullifier: marks and returns, or changes nothing |
| Contracts.CommitmentRegistry.SweepExpired | contracts/contracts/core/CommitmentRegistry.sol:385-399 | the loop skips what is not due and expires the rest, or changes nothing |
| Contracts.CommitmentRegistry.SetPaused | contracts/contracts/core/CommitmentRegistry.sol:421-429 | only the guardian pauses and unpauses |
| LedgerInvariant.CallKeeps | contracts/contracts/core/CommitmentRegistry.sol:257-324 | every call, with anything the outside does inside it, keeps the ledger invariant, satisfies it at every point where the outside has control, leaves the guards as they were and never moves a status backwards |
| LedgerInvariant.ScriptKeeps | contracts/contracts/core/CommitmentRegistry.sol:305-321 | the same for whatever sequence of calls is made from inside; behind the closed registry guard the records, locks, nullifiers and events do not change |
| LedgerInvariant.ExecuteKeeps | contracts/contracts/core/CommitmentRegistry.sol:257-324 | the re-entrant case: invariant at the swap, at the keeper's payment and at the end |
| LedgerInvariant.PayKeeps | contracts/contracts/core/GasVault.sol:74-100 | a payout keeps the invariant and shows it to the recipient |
| LedgerInvariant.RunKeeps | contracts/contracts/core/CommitmentRegistry.sol:158-429 | every run of transactions and blocks keeps the invariant, moves each commitment only forward and never forgets a settlement |
| LedgerTheorems.Solvent | contracts/contracts/core/CollateralVault.sol:60-118 | wherever it is looked at from, also in the middle of an execution: per token the vault holds at least the free and locked balances, a lock is the size of its pending commitment in its tokenIn and zero otherwise, and the gas vault holds at least all gas balances |
| LedgerTheorems.NullifierBijection | contracts/contracts/core/CommitmentRegistry.sol:266-306 | spent nullifiers are in bijection with the executed or cancelled commitments |
| LedgerTheorems.CollateralMovesOnce | contracts/contracts/core/CommitmentRegistry.sol:301-306 | collateral leaves its lock at most once: released exactly when executed, returned exactly when cancelled or expired, so repeated triggers execute a commitment at most once |
| LedgerTheorems.FinalIsFinal | contracts/contracts/core/CommitmentRegistry.sol:15-18 | after an executed, cancelled or expired status nothing in the commitment or its settlement ever changes |
| LedgerTheorems.CancelSucceedsIff | contracts/contracts/core/CommitmentRegistry.sol:368-381 | in every reachable state cancelling succeeds exactly when the registry's own checks pass; the vault never reverts it |
| LedgerTheorems.RegistrationSucceedsIff | contracts/contracts/core/CommitmentRegistry.sol:158-196 | in every reachable state registering succeeds exactly when the registry is not paused, the tokens are set and differ, the kind has a verifier, the hash is set and new, the expiry is ahead and the free balance covers a positive size |
| LedgerTheorems.DepositSucceedsIff | contracts/contracts/core/CollateralVault.sol:60-65 | in every reachable state a deposit succeeds exactly when the amount is positive, approved and held; the balance cannot overflow |
| LedgerTheorems.WithdrawSucceedsIff | contracts/contracts/core/CollateralVault.sol:68-74 | in every reachable state a withdrawal succeeds exactly when the free balance covers a positive amount, and hands it out in full |
| LedgerTheorems.PauseLeavesExit | contracts/contracts/core/CommitmentRegistry.sol:368-399 | cancelling, sweeping and withdrawing do the same whether paused or not |
| LedgerClaims.CallClaim | contracts/contracts/core/CommitmentRegistry.sol:257-324 | no call, with anything done inside it, lowers a user's claim (tokens in hand, free in the vault, committed, or spent by an accepted execution of the user's own commitment) unless the user transfers tokens away in it |
| LedgerClaims.ClaimNeverDrops | contracts/contracts/core/CollateralVault.sol:59-118 | the same over every run: only a user's own token transfers lower the user's claim |
| LedgerGas.GasFallsOnlyByExecutions | contracts/contracts/core/GasVault.sol:74-100 | over every run in which a user withdraws no gas, the prepaid balance falls by no more than what is on record for executions, and every record is of an executed commitment of that user |
| LedgerGas.CallGasClaim | contracts/contracts/core/CommitmentRegistry.sol:485-489 | the same for one call, with anything the outside does inside it |
| LedgerGas.ExecutionDebits | contracts/contracts/core/CommitmentRegistry.sol:485-489 | an execution by somebody else puts exactly 120% of the gas cost, rounded down, on record against the owner; one by the owner puts nothing |
| LedgerTheorems.ExecutionStartsIff | contracts/contracts/core/CommitmentRegistry.sol:264-306 | an execution gets to the swap exactly when the registry is not paused and its checks pass; the vault never reverts it |
| LedgerTheorems.ExecutionSucceedsIff | contracts/contracts/core/CommitmentRegistry.sol:257-324 | the whole of `executeCommitment`, with whatever the swap and the keeper do in between, succeeds exactly when it gets to the swap, the swap succeeds, and the caller is the owner or 120% of the gas cost fits in a word, no payout is under way, the owner's prepaid balance after the swap covers it and the keeper takes it; the gas vault never lacks the ETH |
| LedgerTheorems.BatchRefinesSingles | contracts/contracts/core/CommitmentRegistry.sol:200-244 | a batch of 1 to 10 items with equal lengths is registering them one by one: same success, same final state, and nothing on a failure; any other batch is refused |
| LedgerTheorems.Recoverable | contracts/contracts/core/CommitmentRegistry.sol:385-399 | paused or not, every pending commitment can be swept by anyone at any time after its expiry and its full size withdrawn by the owner; neither call can revert |
| LedgerSweep.SweepIsExpireAll | contracts/contracts/core/CommitmentRegistry.sol:385-399 | sweeping a list never reverts and expires exactly the set of listed commitments that are pending and past expiry |
| LedgerSweep.SweepOrderIrrelevant | contracts/contracts/core/CommitmentRegistry.sol:385-399 | two lists with the same hashes, in any order and with any repetitions, leave the same state |
| LedgerSweep.SweepIdempotent | contracts/contracts/core/CommitmentRegistry.sol:385-399 | sweeping the same list twice is sweeping it once |
| LedgerEffects.RegistrationStores | contracts/contracts/core/CommitmentRegistry.sol:182-193 | a registration stores, under a new hash, a pending record with the sender as owner and exactly the six given fields, moves the size from the free balance to the lock, and leaves every other record as it is |
| LedgerEffects.BatchStores | contracts/contracts/core/CommitmentRegistry.sol:217-243 | a batch that succeeds has 1 to 10 distinct new hashes and stores for each of them a pending record of the sender with exactly that item's fields, and changes no other record |
| LedgerEffects.SweepExpiresIff | contracts/contracts/core/CommitmentRegistry.sol:385-399 | after a sweep a commitment is expired exactly when it already was, or was listed, pending and past its expiry; every other record and lock is as before |
| LedgerEffects.ExpiredIsLate | contracts/contracts/core/CommitmentRegistry.sol:391 | wherever it is looked at from, in every run, an expired commitment is past its expiry, and an executed one was executed no later than its expiry |
| LedgerEffects.SwapIsFunded | contracts/contracts/core/CollateralVault.sol:94-104 | when the swap gets control, the committed size of the committed token has gone from the vault to the DEX adapter, out of the lock of that commitment, and nothing else has moved |
| LedgerEffects.ExecutionPaysKeeper | contracts/contracts/core/CommitmentRegistry.sol:485-489 | when the keeper of somebody else's commitment first has control after the swap, exactly 120% of the gas cost, rounded down, has gone from the gas vault to the keeper, out of the owner's prepaid balance, and no other ETH has moved; with nothing else going on that is the whole effect of the execution on ETH |
| LedgerEffects.OwnExecutionIsFree | contracts/contracts/core/CommitmentRegistry.sol:485-489 | executing an own commitment moves no ETH and no prepaid balance beyond what the swap does |
| LedgerEffects.WithdrawalPaysSender | contracts/contracts/core/GasVault.sol:74-81 | when the recipient of a gas withdrawal has control, exactly the amount has gone from the gas vault to the sender, out of the sender's prepaid balance |
| LedgerEffects.GasWithdrawalSucceedsIff | contracts/contracts/core/GasVault.sol:74-81 | in every reachable state a gas withdrawal succeeds exactly when the amount is positive and covered, no payout is under way and the sender takes it |
| LedgerEffects.GasDepositCredits | contracts/contracts/core/GasVault.sol:61-71 | a gas deposit succeeds exactly when the amount is positive, held and fits, moves it to the gas vault and credits the sender with exactly it |
| LedgerEffects.DepositMoves | contracts/contracts/core/CollateralVault.sol:60-65 | a deposit moves exactly the amount from the sender to the vault and credits the sender with it |
| LedgerEffects.WithdrawMoves | contracts/contracts/core/CollateralVault.sol:68-74 | a withdrawal moves exactly the amount from the vault to the sender and debits the sender by it |
| LedgerEffects.CancelReturns | contracts/contracts/core/CommitmentRegistry.sol:368-381 | a cancellation moves exactly the size from the lock to the owner's free balance, spends exactly the given nullifier, and leaves tokens, ETH and every other record as they are |
| LedgerEffects.PauseSets | contracts/contracts/core/CommitmentRegistry.sol:421-429 | pausing and unpausing by the guardian set the flag to true and false and change nothing else; nobody else can |
| LedgerEffects.OraclePriceIsFloor | contracts/contracts/core/CommitmentRegistry.sol:329-359 | the price of a pair is the exact ratio of the USD price of the token sold to that of the token bought, rounded down |
| Settlement.ExecutedIsSettled | contracts/contracts/core/CommitmentRegistry.sol:276-303 | an executed commitment, and no other, has an accepted proof on record for its own public inputs and its own nullifier |
| Settlement.OrderSettledAtLimit | circuits/order_fill/src/main.nr:138-154 | an executed order had an on-chain price on the committed side of the committed limit, not after the committed expiry, for the committed tokens and amounts |
| Settlement.DcaSettledInWindow | circuits/dca/src/main.nr:133-155 | an executed DCA round settled in its committed window or at most 300 seconds after it, and not after the expiry |
| Settlement.ExecutedInBlock | contracts/contracts/core/CommitmentRegistry.sol:301-303 | a commitment that becomes EXECUTED in a call, also in a nested one, was settled in the block of that call |
| Settlement.ExecutionSettles | contracts/contracts/core/CommitmentRegistry.sol:276-303 | a successful execution puts on record, for its own commitment, the block time and the feeds it found and the proof it was given, whatever the swap and the keeper do |
| Settlement.OrderExecutesAtLimit | contracts/contracts/core/CommitmentRegistry.sol:276-299 | in every reachable state, an order that is executed now has a contract price now, on the committed side of the committed limit, and has not expired |
| Settlement.DcaExecutesInWindow | contracts/contracts/core/CommitmentRegistry.sol:288-299 | a DCA round that becomes EXECUTED in a call, also in a nested one, does so inside its committed window or at most 300 seconds after it, and not after the expiry |
| Settlement.OneFillPerSecret | contracts/contracts/core/CommitmentRegistry.sol:266-303 | no two executed orders came from the same secret and nonce |
| Settlement.RegisteredStaysCommitted | contracts/contracts/core/CommitmentRegistry.sol:158-196 | registering an order under its own hash leaves it committed to exactly that order, owned by the sender, and in every run it stays so for as long as it is pending |
| Settlement.RegisteredRoundsStayCommitted | contracts/contracts/core/CommitmentRegistry.sol:200-244 | the same for each DCA round of a registered batch |
| Settlement.HonestOrderExecutesIff | contracts/contracts/core/CommitmentRegistry.sol:257-324 | with a sound and complete verifier, executing a pending order with its owner's proof succeeds exactly when no fill reference is given, the registry is not paused, the order has not expired, its nullifier is unspent, there is a price on the committed side, the swap succeeds and the gas-tank debit is not owed or goes through |
| Settlement.HonestDcaExecutesIff | contracts/contracts/core/CommitmentRegistry.sol:257-324 | the same for a DCA round proven for a time t: exactly when not paused, not expired, unspent, t is not in the future, at most 300 seconds old, in the committed window and before the expiry, and swap and debit go through |
| Settlement.DcaFillableIff | contracts/contracts/core/CommitmentRegistry.sol:290-296 | while the registry is not paused and the nullifier unspent, some time can be proven for exactly when the committed window is not empty and opens before the expiry, and the present second is in it or at most 300 seconds after it and not after the expiry, so the bound of `DcaExecutesInWindow` is exact |
| Settlement.SpentNullifierBlocks | contracts/contracts/core/CommitmentRegistry.sol:266-303 | once another commitment has spent the nullifier of an order's secret and nonce, no run executes the order, with any proof or nullifier |
| Settlement.CancelSpendsGivenNullifier | contracts/contracts/core/CommitmentRegistry.sol:368-381 | the owner of a pending commitment can cancel it with the unspent nullifier of another pending order: the cancellation succeeds, leaves the order as it is, and no later run executes it |
| FillCondition.LimitFiresIffProvable | backend/internal/service/monitor.go:304-324 | while the contract has a price, the monitor fires on a limit order exactly when it has a registry, can parse the stored limit, the order has not expired and its owner's witness satisfies the circuit at the contract's price |
| FillCondition.DcaFiresIff | backend/internal/service/monitor.go:297-302 | the monitor fires on a DCA round exactly when it can be proven for the present second, except in the second of the expiry itself, when the monitor fires and the circuit refuses |
| FillCondition.DcaAgreesIff | backend/internal/service/monitor.go:297-302 | firing and provability agree at every second if and only if the committed window ends before the expiry or opens after it |
| FillCondition.DcaFiresUnprovable | circuits/dca/src/main.nr:147-151 | a round whose window ends at its expiry: at that second the monitor fires and the circuit refuses |
| FillCondition.ScheduledRoundsAgree | frontend/src/app/(dashboard)/dca/page.tsx:44-53 | on every round the frontend schedules the two agree at every second |
| FillCondition.MarketAlwaysProvable | backend/internal/service/monitor.go:289-296 | a market order can be proven at every price the contract returns, and the monitor fires on it at once unless it has expired |
| Packed.DecodeEncoded | frontend/src/lib/commitment.ts:49-56 | a packed encoding has the length of its widths and decodes to the values it was made from |
| Packed.EncodeDecoded | frontend/src/lib/commitment.ts:49-56 | every byte string of the right length is the encoding of what it decodes to |
| Circuits.U64Bytes | circuits/order_fill/src/main.nr:23-34 | the eight shifts and masks are the big-endian bytes of the value |
| Circuits.FieldToAddressBytes | circuits/order_fill/src/main.nr:42-49 | the loop copies the low 20 bytes |
| Circuits.OrderPreimage | circuits/order_fill/src/main.nr:52-91 | the loops lay out the 185-byte packed encoding of the nine fields |
| Circuits.DcaPreimage | circuits/dca/src/main.nr:57-97 | the loops lay out the 192-byte packed encoding of the nine fields |
| Circuits.NullifierPreimage | circuits/order_fill/src/main.nr:98-104 | the loops lay out secret and nonce in 64 bytes |
| Commitments.ComputeCommitment | circuits/order_fill/src/main.nr:52-95 | the circuit commitment of field elements is the off-chain hash of their canonical values |
| Commitments.ComputeDcaCommitment | circuits/dca/src/main.nr:57-101 | the same for a DCA round |
| Commitments.ComputeNullifier | frontend/src/lib/commitment.ts:58-60 | the circuit nullifier is the off-chain one |
| Commitments.OrderPreimagesAgree | frontend/src/lib/commitment.ts:22-28 | the circuit hashes the same bytes as the frontend if and only if size, minOut, nonce and userSecret are below the field modulus |
| Commitments.DcaPreimagesAgree | frontend/src/lib/dcaCommitment.ts:27-34 | the same for a DCA round |
| Commitments.OrderPreimageInjective | frontend/src/lib/commitment.ts:49-56 | distinct orders have distinct preimages |
| Commitments.DcaPreimageInjective | frontend/src/lib/dcaCommitment.ts:27-34 | distinct DCA rounds have distinct preimages |
| Commitments.OrderPreimageOnto | frontend/src/lib/commitment.ts:49-56 | a 185-byte string is some order's preimage if and only if its direction byte is 0 or 1 |
| Commitments.OrderPreimageLayout | frontend/src/lib/commitment.ts:49-56 | the nine fields stand in their order at bytes 0, 20, 40, 72, 104, 112, 120, 121 and 153 of the 185 |
| Commitments.DcaPreimageLayout | frontend/src/lib/dcaCommitment.ts:27-34 | the nine fields stand in their order at bytes 0, 20, 40, 72, 104, 112, 120, 128 and 160 of the 192 |
| Commitments.AddressFieldIff | circuits/order_fill/src/main.nr:113-118 | the address assertion holds exactly for values below 2^160 |
| Commitments.OrderBinding | circuits/order_fill/src/main.nr:138-154 | a satisfied circuit speaks about the very order the commitment was made for, and the price is on the committed side |
| Commitments.DcaBinding | circuits/dca/src/main.nr:133-155 | the same for a DCA round and its window |
| Commitments.HonestOrderProvesIff | circuits/order_fill/src/main.nr:147-151 | the owner's witness satisfies the circuit exactly when the price is on the committed side |
| Commitments.HonestDcaProvesIff | circuits/dca/src/main.nr:147-151 | the owner's witness satisfies the circuit exactly when the time is in the window and before the expiry |
| Price.PricesAgree | contracts/contracts/core/CommitmentRegistry.sol:347-359 | the contract returns a price exactly when the keeper does and its intermediate products fit in a word, and then it is the same price; for the monitor exactly when in addition the decimals are at most 18 and the price fits in 64 bits |
| Price.PriceIsFloor | contracts/contracts/core/CommitmentRegistry.sol:350-354 | the price is the exact ratio of the two USD prices in units of the output feed, rounded down |
| Price.PriceMonotone | keeper/src/chain/oracle.ts:49-51 | a larger answer in or a smaller answer out never lowers the price |
| Price.RoundTripPrice | keeper/src/chain/oracle.ts:49-51 | the prices of the two directions multiply to at most ten to the sum of the decimals |
| Indexer.IndexerService.AddExecutedWaiter | backend/internal/service/indexer.go:118-121 | appends a new empty channel to the list of its hash |
| Indexer.IndexerService.RemoveExecutedWaiter | backend/internal/service/indexer.go:147-163 | takes the first occurrence of the channel out of the list and drops the key of an empty list |
| Indexer.IndexerService.NotifyExecuted | backend/internal/service/indexer.go:165-177 | drops the key and puts the record into every listed channel that is empty |
| IndexerRuns.StepPreserves | backend/internal/service/indexer.go:109-213 | each database call, locked section and channel operation keeps the invariant of the waiter table |
| IndexerRuns.NoLostWakeup | backend/internal/service/indexer.go:109-213 | in every interleaving of waiters with the one goroutine that delivers events, once a HandleExecuted of a hash has finished every waiter on the hash will see the execution in its next read, or has the record in its channel, or has left with an outcome |
| IndexerRuns.NeverDroppedNeverEmpty | backend/internal/service/indexer.go:147-177 | in every interleaving no send is dropped and no key keeps an empty list |
| Monitor.MonitorService.StartMonitoring | backend/internal/service/monitor.go:207-226 | adds an entry with a fresh live context and counts it, unless the hash is already watched |
| Monitor.MonitorService.StopMonitoring | backend/internal/service/monitor.go:187-195 | cancels, removes and uncounts the entry, if there is one |
| MonitorRuns.StepPreserves | backend/internal/service/monitor.go:187-286 | every step of every goroutine keeps table, contexts and gauge in agreement |
| MonitorRuns.TableBijection | backend/internal/service/monitor.go:187-226 | in every interleaving the table keys are in bijection with the goroutines that are not cancelled |
| MonitorRuns.GaugeCountsKeys | backend/internal/service/monitor.go:187-226 | the gauge of each kind is the number of keys of that kind |
| MonitorRuns.AtMostOneTrigger | backend/internal/service/monitor.go:278-285 | no goroutine fires a second keeper trigger |
| MonitorDone.DoneIsFinalIff | backend/internal/service/monitor.go:166-286 | after any run, a DONE row stays DONE in every further run if and only if no start of it by a request or the sweeper is pending, it is not on the sweeper's list, every trigger of it has ended, no goroutine of it stands between its mark and its trigger, and a goroutine still watching it is one that has itself just written DONE |
| MonitorDone.DoneRevived | backend/internal/service/monitor.go:492-505 | a run in which a row the indexer wrote as DONE goes back to PENDING through a late rejection and is watched again |
| MonitorDone.SweeperRevives | backend/internal/service/monitor.go:166-179 | a run in which the sweeper's own restart marks a row the indexer wrote as DONE as EXECUTING |
| RateLimiter.Limiter.KeepersRateLimit | keeper/src/api/server.ts:83-103 | the in-place bucket update makes the decision and leaves the map of the specification |
| RateLimiter.Limiter.SweepBuckets | keeper/src/api/server.ts:107-112 | the loop deletes exactly the buckets idle for longer than the limit |
| RateLimiter.EvictionInvisible | keeper/src/api/server.ts:83-112 | for every request sequence with a clock that never runs backwards, sweeping changes no decision |
| RateLimiter.WindowBound | keeper/src/api/server.ts:83-112 | in any window of T milliseconds of any run one client is admitted at most 30 + T*30/60000 times |
| RateLimiter.RefusedOnlyAfterBurst | keeper/src/api/server.ts:83-103 | in every run, sweeps included, a request is refused only if from some earlier answer to the same client on it was admitted more than 29 times plus 30 for each minute since |
| RateLimiter.ThirtyFirst | keeper/src/api/server.ts:83-103 | with a clock that never runs backwards no client is refused before it was admitted 30 times |

## Left out

- DCAVerifier.sol: the same code as OrderFillVerifier.sol with other key constants.
- Curve operations, the pairing, Fiat-Shamir hashing and the Poseidon, elliptic and memory relation formulas: the batched relation is a function parameter of sumcheck, the challenges are parameters, and the modexp precompile is taken as exponentiation in the field.
- FrLib.neg, FrLib.pow and splitChallenge: not needed by the parts modelled; `neg` of zero would give a non-canonical residue, which `Fr` does not represent.
- setVerifier, setDEXAdapter, setGasVault, setCollateralVault, setRegistry and setGuardian: the wiring is fixed during a run. Changing the vault or the registry breaks the link between records and locks.
- setOracleStaleness: no code reads the value.
- The vault's own re-entrancy guard: standard tokens make no callbacks, so it is never seen closed.
- ERC-20 allowances: whether a transferFrom is approved is part of the deposit.
- The gas used by an execution and its price: one parameter of the execution; gas exhaustion is not modelled.
- Calldata widths: amounts and addresses in the ledger are naturals; the bounds that matter come from the verifier hypothesis and the explicit overflow checks.
- The protocol's contracts as senders: the vaults and the registry never start a call of their own.
- Token recipients at the zero address, and tokens with fees, rebasing or hooks.
- That the swap pays out at least minOut, and that oracle answers are fresh: the code does not ensure either.
- Aliasing of Go slices in removeExecutedWaiter: lists are values, and every access to them is under the mutex.
- Cancellation of the monitor's root context at shutdown, and the goroutines that prune keeper shares.
- The monitor's database errors other than failed writes, and time in the monitor: a tick may come at any moment.
- HTTP handlers, RPC clients, Postgres, Redis and SQLite, metrics export, deployment scripts and the React frontend.
- Threshold secret sharing, ECIES and proof generation in the keeper: thin wrappers over libraries.
- randomBytes32 and deriveUserSecret: randomness and wallet signatures are inputs.
- Floating point in the rate limiter: tokens are real numbers.
- The submission of transactions by the keeper (keeper/src/execution/submitter.ts) and the execution statistics: they change no state that the properties here depend on.
