# psv in Dafny

psv checks x402 payment systems against the chain they settle on. This project models its behaviour in Dafny and
proves what that behaviour is for: money is funded once and credited for real, the strict oracle's verdicts mean
what they say, and the encoders have exact inverses. `dafny verify dfyconfig.toml` checks everything.

## What is modelled

**The payment protocol.** `Token` is the EIP-3009 contract: one call on a token state, and the contract class that
performs the same calls in place. `Chain` records blocks of included calls with their states and logs; `Evidence`
is the JSON-RPC evidence a truthful node gives about them. `Confirmer` is the event-watching decision,
`Reconciliation` the ledger reconciliation. `Protocol` is the reference SUT as a step system over all of that:
quote, pay, retry, chain activity, price changes, backup, restore and reconcile, in any order. `ReferenceSut` is the
same SUT as the source writes it, a dictionary of mutable order objects, each method proved equal to its step.
`NoPhantomCredit`, `PendingSlot`, `Funding`, `Accounting`, `Healing` and `LostLogQuery` hold what whole runs keep.
`ConcurrentPay` splits a payment into its steps and lets any requests interleave; `OverlappingPay` is what goes wrong
when two of them overlap on one order, `RestoredFunding` what restores do to funding, `SharedIdentity` when two paid orders
name one settlement. `SutAnswers` and `QuoteAnswers` are the client's strict reading of the answers.
`StrictDecoding` and `HexGrammar` say which texts the reconciliation's decoders really accept.

Beside these stand modules that say the same operations in plain terms, apart from their definitions: `TokenAuthority`
(who can move what), `PayGuards` (what is sent and what refused), `GapExplained` (when a reconciliation fails, what it
returns, in which order), `ConfirmerChecks` and `OracleChecks` (every check on arbitrary evidence), `StrictAnswers`.

**The strict oracle.** `Rails` is `reconcile_live` with its three loops; `RailsOnChain` and `OracleVerdicts` say
exactly which settlements it accepts on the truthful answers for any valid chain; `PayeeIncome` relates the amount it
reports to the settlement's own net value; `MaskedSettlement` is a reachable chain on which an accepted verdict hides
other money; `OracleRefinement` relates the oracle to the confirmer on arbitrary well-formed receipts,
`ConfirmerAgreement` on the answers of a truthful node.

**The journal.** `Journal` is one writer on a directory whose writes may be partial or fail, `JournalSafety` any
interleaving of writers one system call at a time, `JournalSolo` an undisturbed one among them, `JournalAudit` the
verification of what they leave and `JournalLines` what it accepts.

**Encoders and arithmetic.** `JsonText` and `Receipt` (canonical receipt bytes), `JsonReader` (a reader by RFC 8259) and
`CanonicalPayload` (what is signed, in plain terms), `DecimalText` (what decimal text denotes), `Calldata` (EIP-3009 calldata and
a decoder by the Solidity Contract ABI Specification), `Amounts` (decimal conversion), `QuoteOption`, `Finality`.
`Numerals`, `PythonText`, `Ordering`, `Json` and `Common` are shared ground.

## Assumptions

Order ids and transaction hashes are fresh; recovered ids are keyed by the text SHA-256 would hash, so the hash is
injective. A send returns its hash or broadcasts nothing. Receipts and log queries are truthful, and the chain of
the payment protocol has no reorgs. Signature recovery is the uninterpreted field `signer`. In `Protocol` requests
are handled one at a time, and while one waits, the chain moves; `ConcurrentPay` drops that assumption for payments.

## Where a promise does not hold as stated

- At-most-once funding fails when the log query after a landed settlement fails: `_confirm` clears the pending slot
  (src/psv/reference_sut/server.py:211-212) before it fetches logs. `LostLogQuery.SlotLostExactlyWhen` says when the slot
  is lost, if and only if, on any event; from every world with a lost slot a funded payer's retry funds the order twice
  (`LostLogQuery.FundedPayerFundsTwice`), and `LostLogQuery.FundedTwice` is such a run.
- At-most-once funding also needs requests on one order not to overlap: the guards (src/psv/reference_sut/server.py:152-170)
  run before anything is recorded. Without overlap it holds for every interleaving
  (`ConcurrentPay.FundedAtMostOnceConcurrently`); two requests on an open order always get past the guards together
  (`OverlappingPay.OverlapArises`), and then both executable authorizations land (`OverlappingPay.OverlapFundsTwice`).
  Even if one of them fails, its late request clears or overwrites the slot of the other, which succeeded
  (`OverlappingPay.StaleWaiterClearsSlot`, `OverlappingPay.StaleParkLosesSlot`), and the next payment funds the order again
  (`OverlappingPay.LostSlotPaysAgain`).
- A restore can undo at-most-once funding: restoring a backup loses the slot of exactly the successes it holds open
  (`RestoredFunding.RestoreLosesExactly`), healing leaves it lost (`RestoredFunding.HealingKeepsLostSlot`), and a retry then
  funds the order again (`RestoredFunding.RestoreHealFundsTwice`). A restore keeps what at-most-once rests on if and only if
  the backup knows every broadcast that has not failed (`RestoredFunding.RestoreKeepsExactlyWhen`), and then it holds over
  any such run (`RestoredFunding.FundedAtMostOnceWithRestores`).
- One settlement can pay two orders on the books: if healing books a landed payment while its order is pending, confirming the
  order afterwards (src/psv/reference_sut/server.py:224-233) leaves two paid orders with one identity
  (`SharedIdentity.HealThenConfirmShares`, from deployment `SharedIdentity.SharedFromDeployment`). Two orders share a
  settlement only in that way, and for an idempotent SUT without restores if and only if it happened
  (`SharedIdentity.SharesExactlyWhen`).
- "The payer fell by the value with no inflow" fails for the oracle: a payment of the payer on the drifted event is
  invisible to the race query and can mask an equal inflow (`MaskedSettlement.DriftMasksInflow`). There is no inflow
  exactly when no payment of the payer drifted in that block (`OracleVerdicts.AcceptedSettlement`).
- Likewise "received" need not be what this settlement brought: the race query misses drifted payments into the payee and
  fees an admin payee earns. Received plus what the payee paid out is the settlement's value less its fee plus those two
  (`PayeeIncome.ReceivedAccounted`). For a payee that paid nothing out in the block, the report is the settlement's own
  share if and only if nothing else came drifted or as a fee (`PayeeIncome.ReceivedOwnExactlyWhen`); for a payee that
  is not the admin and that no other drifted or outgoing payment of the block names, report and grade are exact
  (`PayeeIncome.LonePayeeIsExact`). `MaskedSettlement.DriftMasksInflow` reports 10 for a net of 9.
- `_exact_hex` (src/psv/reconciliation.py:23-31) is documented as exact fixed-size hex, but `bytes.fromhex` lets
  whitespace between bytes through: an accepted text is exact hex if and only if nothing after its prefix is blank
  (`StrictDecoding.ExactHexPromise`; `StrictDecoding.BlanksPassAsHex` is a text where it fails).
- `_quantity` (src/psv/reconciliation.py:34-49) is documented as a canonical JSON-RPC quantity, but `int(text, 16)` lets
  signs, underscores and blanks through: an accepted text is canonical if and only if only hex digits follow its prefix
  (`StrictDecoding.QuantityPromise`; `StrictDecoding.LooseQuantitiesPass` has three that are not).
- So a log that should count as malformed can decode: any Transfer log with the last byte of its amount blanked out reads
  as the amount over 256 (`StrictDecoding.BlankedAmountDecodes`). Every log of the documented form decodes, and one that
  decodes has that form if and only if it is free of blanks, signs and underscores (`StrictDecoding.DecodePromise`).
- With `confirm_without_waiting` no receipt is fetched, and the confirmer refuses without one: that configuration
  never confirms anything (`ChainTruth.NoReceiptNoIndex`).

## Model

| member | source | states |
|---|---|---|
| Token.CreditsCannotOverflow | onchain/src/UpgradeableMockUSDC.sol:129-139 | in a conserving state a transfer reverts for its guards or because the fee product leaves uint256, never because a credit overflows |
| Token.MovedConserves | onchain/src/UpgradeableMockUSDC.sol:131-141 | a transfer keeps the sum of balances, also when payer, payee and admin coincide |
| Token.AfterKeepsValid | onchain/src/UpgradeableMockUSDC.sol:61-148 | every call keeps the balances adding up to totalSupply, keeps the admin and frees no nonce; reverts change nothing |
| Token.RunConserves | onchain/src/UpgradeableMockUSDC.sol:61-148 | conservation after any history of mints, fee and event changes and transfers |
| Token.DeployedRunConserves | onchain/src/UpgradeableMockUSDC.sol:55-148 | the same from deployment |
| Token.NonceSpentAtMostOnce | onchain/src/UpgradeableMockUSDC.sol:105-148 | over any history an (authorizer, nonce) is spent at most once, and never freed |
| Token.UpgradeableMockUSDC.constructor | onchain/src/UpgradeableMockUSDC.sol:55-57 | storage starts as the deployed state |
| Token.UpgradeableMockUSDC.ChangeEventMode | onchain/src/UpgradeableMockUSDC.sol:61-67 | in place, exactly the specified call, with its event or its revert |
| Token.UpgradeableMockUSDC.ChangeFeeBps | onchain/src/UpgradeableMockUSDC.sol:70-75 | in place, exactly the specified call, with its event or its revert |
| Token.UpgradeableMockUSDC.MintTo | onchain/src/UpgradeableMockUSDC.sol:81-85 | in place, exactly the specified call; an overflow of balance or supply leaves storage untouched |
| Token.UpgradeableMockUSDC.TransferWithAuth | onchain/src/UpgradeableMockUSDC.sol:105-148 | in place, exactly the specified call; any revert after the nonce was marked rolls everything back |
| TokenAuthority.TransferExecutesExactlyWhen | onchain/src/UpgradeableMockUSDC.sol:105-130 | a transfer executes iff its payer signed it, it is strictly inside its window, its nonce is fresh, the balance covers it, no party is zero and the fee product fits |
| TokenAuthority.TransferMovesExactly | onchain/src/UpgradeableMockUSDC.sol:128-147 | it moves the value from the payer, the value less the rounded-down fee to the payee, the fee to the admin, and nothing else; with its two events |
| TokenAuthority.MintMovesExactly | onchain/src/UpgradeableMockUSDC.sol:81-85 | a mint fails iff the supply would overflow, and otherwise adds to one balance and the supply |
| TokenAuthority.AdminCallsExactly | onchain/src/UpgradeableMockUSDC.sol:61-75 | fee and event change iff the admin asks within bounds, and nothing else changes with them |
| TokenAuthority.LossNeedsSignature | onchain/src/UpgradeableMockUSDC.sol:114-131 | no call lowers an account or spends its nonce without a transfer that this account signed, in its window, fresh and covered |
| TokenAuthority.LossIsSignedAway | onchain/src/UpgradeableMockUSDC.sol:105-148 | over any history an account loses at most the value it signed away |
| TokenAuthority.SomeCallWasSigned | onchain/src/UpgradeableMockUSDC.sol:105-148 | an account that ends a history poorer, or with a nonce newly spent, signed one of its calls |
| Confirmer.SettlementLogIndex | src/psv/reference_sut/confirmer.py:87-162 | the scan returns the decision: the last matching Transfer, if a matching AuthorizationUsed sits elsewhere |
| Confirmer.DecisionMeansBothEvents | src/psv/reference_sut/confirmer.py:106-162 | a confirmation always rests on a matching Transfer and a matching AuthorizationUsed at different positions of a good receipt |
| Confirmer.DecisionOnTruth | src/psv/reference_sut/confirmer.py:87-162 | on a truthful receipt and log query the decision is exactly: succeeded, not before the order, authorization then the order's Transfer |
| ConfirmerChecks.ConfirmationHasEvidence | src/psv/reference_sut/confirmer.py:60-162 | on any evidence a confirmation has a good receipt, the last live Transfer of the order, also fetched, and the last authorization event at another index, field by field |
| ConfirmerChecks.EvidenceIsConfirmed | src/psv/reference_sut/confirmer.py:60-162 | and that evidence is always confirmed with that index |
| Reconciliation.FindUnreconciled | src/psv/reconciliation.py:177-226 | fails exactly on bad expectations or an inconclusive snapshot, and otherwise returns the missing credits in strictly ascending order |
| Reconciliation.MissingArranged | src/psv/reconciliation.py:198-226 | the answer holds exactly the non-removed observed credits unknown to the ledger, strictly sorted |
| Reconciliation.AnswerUnique | src/psv/reconciliation.py:214-226 | that description determines the list |
| Reconciliation.OnlyTheSetOfLogsMatters | src/psv/reconciliation.py:177-226 | permuting or repeating logs changes neither failure nor the list |
| Reconciliation.RecordingShrinksTheGap | src/psv/reconciliation.py:205-226 | recording a reported credit removes exactly that credit from the next answer |
| GapExplained.DecodesExactly | src/psv/reconciliation.py:142-171 | a log decodes to a credit iff each field of the log spells the credit's; the first address topic is the payer, the second the payee |
| GapExplained.FailsExactlyWhen | src/psv/reconciliation.py:177-213 | a reconciliation fails iff a log is no complete Transfer, of another asset or to another payee than expected, or two logs of one settlement differ |
| GapExplained.AnswerHolds | src/psv/reconciliation.py:205-226 | it returns exactly the decoded live credits whose identity is unknown |
| GapExplained.AnswerOrdered | src/psv/reconciliation.py:214-226 | block numbers never fall in the answer, ties ascend by log index, then transaction hash and asset by code points |
| GapExplained.KnownExactly | src/psv/reconciliation.py:205-213 | known are the identities the ledger lists and those of the credits it lists |
| GapExplained.ExpectationExactly | src/psv/reconciliation.py:190-197 | an empty expectation is none, any other must be a 20-byte address and is normalized |
| GapExplained.ScopedFailsExactlyWhen | src/psv/reconciliation.py:229-256 | the scoped call fails on any malformed log, but on payee and contradictions only among the logs of its asset |
| GapExplained.ScopedAnswerHolds | src/psv/reconciliation.py:229-256 | it returns exactly the unknown live credits of its asset |
| Reconciliation.DecodeOfTransfer | src/psv/reconciliation.py:142-171 | decoding an honest Transfer log gives back the transfer, field by field |
| Reconciliation.DecodeOfOther | src/psv/reconciliation.py:142-171 | no other event of the token decodes as a credit |
| StrictDecoding.ExactHexPromise | src/psv/reconciliation.py:23-31 | an accepted text is fixed-size hex iff nothing after its prefix is blank |
| StrictDecoding.BlanksPassAsHex | src/psv/reconciliation.py:23-31 | a text of blanks is accepted as one byte of hex |
| StrictDecoding.QuantityPromise | src/psv/reconciliation.py:34-49 | an accepted quantity is canonical iff only hex digits follow its prefix |
| StrictDecoding.LooseQuantitiesPass | src/psv/reconciliation.py:34-49 | an underscore, a sign and a blank are accepted after the prefix |
| HexGrammar.HexTextReads | src/psv/reconciliation.py:34-49 | int(text, 16) on blanks, sign, prefix, digit groups and blanks is the signed number of the digits |
| HexGrammar.HexTextIsSpelled | src/psv/reconciliation.py:34-49 | and accepts no other text |
| HexGrammar.FromHexExactly | src/psv/reconciliation.py:23-31 | bytes.fromhex accepts exactly digit pairs with blanks around them |
| StrictDecoding.PlainLogsDecodeStrictly | src/psv/reconciliation.py:142-171 | a log whose texts hold no blank, sign or underscore decodes iff every field has its documented form |
| StrictDecoding.DecodePromise | src/psv/reconciliation.py:142-171 | any log of the documented form decodes; a log that decodes has that form iff its texts hold no blank, sign or underscore |
| StrictDecoding.MalformedMeansIncomplete | src/psv/reconciliation.py:198-226 | on such logs the reconciliation calls a log malformed iff it lacks the documented form |
| StrictDecoding.BlankedAmountDecodes | src/psv/reconciliation.py:142-171 | every Transfer log with the last byte of its amount blanked out decodes, to the amount over 256 |
| Reconciliation.ReconcileAssetScoped | src/psv/reconciliation.py:229-256 | the scoped loop computes the scoped answer, and fails exactly when it does |
| Reconciliation.ScopingFilters | src/psv/reconciliation.py:229-256 | whenever the unscoped call succeeds, scoping is a filter of its list |
| Reconciliation.ScopingAgreesWithStrict | src/psv/reconciliation.py:229-256 | whenever the strict asset-checked call succeeds, both agree |
| Reconciliation.ScopedListsPartition | src/psv/reconciliation.py:229-256 | each credit of the unscoped list is in the scoped list of its own asset and of no other |
| ChainTruth.LogIndexIsTrue | src/psv/reference_sut/server.py:213-223 | inside the protocol the confirmer decides on the node's truthful answers |
| ChainTruth.NoReceiptNoIndex | src/psv/reference_sut/server.py:191-200 | without a receipt nothing is confirmed, so confirm_without_waiting never confirms |
| ChainTruth.DecisionIsLog | src/psv/reference_sut/server.py:224-233 | a confirmed index points at a successful Transfer to the merchant over the order's amount |
| NoPhantomCredit.NextKeepsInv | src/psv/reference_sut/server.py:121-306 | every step keeps each ledger and backup funded, linked to its own broadcasts, and its pending slots consistent |
| NoPhantomCredit.RunKeepsInv | src/psv/reference_sut/server.py:121-306 | the same over any run, and chain, broadcasts and backups only grow |
| NoPhantomCredit.PaidOrdersAreFunded | src/psv/reference_sut/server.py:188-306 | in any run each paid order, ordinary or recovered, names a Transfer to the merchant over its own amount by a transaction that succeeded |
| NoPhantomCredit.PaidOrdersAreDistinct | src/psv/reference_sut/server.py:188-234 | in any run two ordinary paid orders never name the same settlement |
| PendingSlot.PendingOrdersAreInFlight | src/psv/reference_sut/server.py:165-212 | in every idempotent run a pending order is unpaid, its pending transaction is the submitted one and carries its own authorization |
| PendingSlot.RetryNeverBroadcasts | src/psv/reference_sut/server.py:165-176 | paying a pending order broadcasts nothing, counts no attempt and keeps its authorization while it stays pending |
| PendingSlot.AnswersMeanTheLedger | src/psv/sut.py:228-242 | every answer about a known order parses; it reads SETTLED iff the order is now paid and PENDING iff it names the now pending transaction |
| PayGuards.PaySendsExactlyWhen | src/psv/reference_sut/server.py:143-186 | a payment broadcasts iff the order is known, neither paid nor pending where idempotent, unexpired, within tolerance, and the authorization pays the price to the merchant; then exactly that |
| PayGuards.RefusalsExactly | src/psv/reference_sut/server.py:143-180 | each refusal has exactly its reason and leaves the world as it was |
| PayGuards.RefusedSubmission | src/psv/reference_sut/server.py:180-186 | an attempt that fails only at submission is counted, sends nothing and raises |
| PayGuards.ConfirmExactly | src/psv/reference_sut/server.py:188-234 | confirming waits, raises or decides, each exactly when, and what it leaves of the order field by field |
| PayGuards.EverySendPassedTheGuards | src/psv/reference_sut/server.py:143-186 | whatever a run ever sent was sent at a step whose guards held then |
| PayGuards.NothingSentLate | src/psv/reference_sut/server.py:170-186 | from deployment: every broadcast was made before its quote expired, within tolerance, over the price to the merchant |
| PayGuards.QuoteExactly | src/psv/reference_sut/server.py:121-141 | a new quote is at the configured price, valid for the time to live, with nothing paid or pending, and touches no other order |
| SutAnswers.AnswerParses | src/psv/sut.py:228-242 | strict parsing of the SUT's answers gives exactly what the SUT meant |
| StrictAnswers.AnswersInWords | src/psv/reference_sut/server.py:143-234 | the SUT's answers, word for word |
| StrictAnswers.PayAnswerExactly | src/psv/sut.py:228-242 | an arbitrary body is accepted as an answer iff it states that answer in the documented fields, for the expected order, without contradiction |
| StrictAnswers.QuoteExactly | src/psv/sut.py:210-225 | an arbitrary body is accepted as a quote iff it offers exactly that quote |
| QuoteAnswers.QuoteParsesExactlyWhen | src/psv/sut.py:210-225 | the SUT's quote parses iff its terms are usable, and then the client reads exactly those terms |
| Funding.RunResolves | src/psv/reference_sut/server.py:143-234 | between requests an unpaid order with nothing pending has seen every broadcast of it fail |
| Funding.FundedAtMostOnce | src/psv/reference_sut/server.py:143-234 | at most one of all the transactions ever broadcast for an order succeeds, and the order is paid by it or pending on it |
| Accounting.MerchantGrowthIsAccountedFor | src/psv/reference_sut/server.py:143-234 | the merchant's growth from all broadcasts equals the net amounts of paid ordinary orders plus mined but unconfirmed pending ones |
| LostLogQuery.SlotLostExactlyWhen | src/psv/reference_sut/server.py:205-223 | on any event: the slot is lost iff the receipt of a success was read and the log query failed or the event had drifted |
| LostLogQuery.LostSlotFundsTwice | src/psv/reference_sut/server.py:143-186 | from any world with a lost slot, every retry past the guards that the token would execute funds the order again |
| LostLogQuery.FundedPayerFundsTwice | src/psv/reference_sut/server.py:143-186 | from any world with a lost slot, an open quote and a payer holding the price are enough for such a retry |
| LostLogQuery.FundedTwice | src/psv/reference_sut/server.py:211-223 | a concrete run in which that loss lets a retry fund the order a second time |
| ConcurrentPay.PayIsUninterrupted | src/psv/reference_sut/server.py:143-234 | a payment let through by the guards is exactly its separate steps with only the chain in between |
| ConcurrentPay.MovedKeeps | src/psv/reference_sut/server.py:121-306 | each single step of any request, or of another job, keeps requests and orders in agreement while none overlap on one order |
| ConcurrentPay.FundedAtMostOnceConcurrently | src/psv/reference_sut/server.py:143-234 | at most one broadcast of an order succeeds in every interleaving without two requests on one order at once |
| OverlappingPay.OverlapArises | src/psv/reference_sut/server.py:152-180 | two requests arriving on an open order both pass its guards, whatever else is in flight |
| OverlappingPay.OverlapFundsTwice | src/psv/reference_sut/server.py:180-186 | from any state with two requests of one order past its guards, executable authorizations fund it twice |
| OverlappingPay.LatePassFundsTwice | src/psv/reference_sut/server.py:180-186 | a request past the guards funds the order again even after another broadcast of it has succeeded |
| OverlappingPay.StaleWaiterArises | src/psv/reference_sut/server.py:180-204 | after two overlapping sends the first request waits for a transaction other than the one parked |
| OverlappingPay.StaleWaiterClearsSlot | src/psv/reference_sut/server.py:205-223 | a request whose own broadcast failed clears the slot of the one that succeeded, and the order stays open |
| OverlappingPay.StaleParkLosesSlot | src/psv/reference_sut/server.py:165-212 | or it parks its failed broadcast over it, and the next retry clears the slot |
| OverlappingPay.LostSlotPaysAgain | src/psv/reference_sut/server.py:143-186 | from any state with a lost slot the next request on the still open order funds it again |
| OverlappingPay.OverlappedTwice | src/psv/reference_sut/server.py:143-186 | a concrete interleaving from deployment with two successes on one order |
| RestoredFunding.RestoreLosesExactly | src/psv/reference_sut/server.py:261-263 | restoring loses the slot of a success iff the backup holds its order unpaid with nothing pending |
| RestoredFunding.HealingKeepsLostSlot | src/psv/reference_sut/server.py:265-306 | healing neither closes nor opens a lost slot |
| RestoredFunding.RestoreHealFundsTwice | src/psv/reference_sut/server.py:257-306 | restoring such a backup, healing and one retry of a funded payer fund the order twice |
| RestoredFunding.RestoreKeepsExactlyWhen | src/psv/reference_sut/server.py:257-263 | a restore keeps the funding invariant iff the backup knows every broadcast that has not failed |
| RestoredFunding.FundedAtMostOnceWithRestores | src/psv/reference_sut/server.py:143-263 | at most one broadcast of an order succeeds in every run whose restored backups know every broadcast that has not failed |
| SharedIdentity.SharingKinds | src/psv/reference_sut/server.py:265-306 | of two paid orders with one settlement exactly one is recovered |
| SharedIdentity.SharingStartsExactlyWhen | src/psv/reference_sut/server.py:188-306 | in every step but a restore, sharing starts iff a payment confirms an order by what a recovered order already books |
| SharedIdentity.SharesExactlyWhen | src/psv/reference_sut/server.py:188-306 | in any run two orders share a settlement only if one was confirmed after the other, recovered one had booked it; iff for an idempotent SUT without restores |
| SharedIdentity.HealThenConfirmShares | src/psv/reference_sut/server.py:224-306 | healing while a landed payment is pending and confirming it afterwards always leaves two paid orders for it |
| SharedIdentity.SharedFromDeployment | src/psv/reference_sut/server.py:121-306 | a concrete run from deployment that ends so |
| Healing.IdentityKeyUnambiguous | src/psv/reference_sut/server.py:291-294 | distinct settlement identities have distinct keys, so distinct recovered order ids |
| Healing.GapAnswers | src/psv/reference_sut/server.py:272-288 | on truthful logs the reconciliation never fails, whatever the ledger |
| Healing.GapIsForgotten | src/psv/reference_sut/server.py:265-306 | it reports a live merchant credit iff the ledger does not know its identity |
| Healing.ReconcileClosesGap | src/psv/reference_sut/server.py:265-306 | healing keeps every order, books one order per forgotten credit over its value, and leaves nothing for a second pass |
| Healing.BookedExactly | src/psv/reference_sut/server.py:288-305 | healing books each credit of the gap under its key as a recovered, paid, expired order over its value and changes nothing else |
| Healing.RestoreAndHealClosesGap | src/psv/reference_sut/server.py:257-306 | the same after restoring any backup of any run: paid identities become the backup's plus all live ones |
| ReferenceSut.Order.constructor | src/psv/reference_sut/server.py:82-98 | a new order object holds the given fields |
| ReferenceSut.ReferenceSut.constructor | src/psv/reference_sut/server.py:96-119 | an empty ledger at the list price |
| ReferenceSut.ReferenceSut.Quote | src/psv/reference_sut/server.py:121-141 | in place, exactly the quote step; the terms returned are those of the order kept and of the configuration |
| ReferenceSut.ReferenceSut.Pay | src/psv/reference_sut/server.py:143-186 | in place, exactly the pay step and its answer, and no order object is replaced |
| ReferenceSut.ReferenceSut.ConfirmOrder | src/psv/reference_sut/server.py:188-234 | in place, exactly the confirmation, parking and pending-slot branches and their answers |
| ReferenceSut.ReferenceSut.BackupLedger | src/psv/reference_sut/server.py:257-259 | a backup has the ledger's contents in objects of its own |
| ReferenceSut.ReferenceSut.RestoreLedger | src/psv/reference_sut/server.py:261-263 | the ledger takes the backup's contents in new objects, so neither can reach the other later |
| ReferenceSut.ReferenceSut.KnownIdentities | src/psv/reference_sut/server.py:277-281 | exactly the identities of the paid orders |
| ReferenceSut.ReferenceSut.Reconcile | src/psv/reference_sut/server.py:265-306 | in place, exactly the reconciliation step; it returns the gap and fails iff the snapshot is inconclusive |
| Rails.AuthorizationLogIndex | src/psv/rails.py:754-775 | the loop finds the index of the one live AuthorizationUsed log for payer and nonce, or raises |
| Rails.SelectedTransfer | src/psv/rails.py:778-799 | the loop decodes the one log at the requested index, emitted by the token, or raises |
| Rails.EnsureNoSameBlockRace | src/psv/rails.py:802-830 | passes iff every Transfer the two queries return is live and is the selected one, and there is one |
| Rails.ReconcileLive | src/psv/rails.py:833-1016 | the branch-by-branch evidence comes to the specified verdict or failure |
| Rails.VerdictGrades | src/psv/divergence.py:59-125 | consistent_paid iff proved, believed and at least the required amount received; the other kinds likewise |
| OracleChecks.AcceptedIsChecked | src/psv/rails.py:833-1016 | on arbitrary answers every verdict rests on all checks: request, rail, one block hash before and after, depth, balances, one Transfer, one authorization, no race; and reports them |
| OracleChecks.CheckedIsAccepted | src/psv/rails.py:833-1016 | and answers of which all this holds get that verdict |
| OracleChecks.ReorganizedIsRefused | src/psv/rails.py:972-983 | no verdict when the rechecked receipt or block names another hash than the receipt |
| RailsOnChain.BalanceChange | onchain/src/UpgradeableMockUSDC.sol:81-148 | balances change by exactly what the included calls moved: legacy out, drifted out, in |
| RailsOnChain.RaceOnTruth | src/psv/rails.py:802-830 | on truthful queries the race check passes iff the settlement is the only Transfer out of the payer or into the payee in its block |
| RailsOnChain.VerdictOnSuccess | src/psv/rails.py:833-1016 | for a successful transaction of any valid chain: accepted iff acceptable, settled as requested, alone in its block and attributable; with the evidence it carries |
| RailsOnChain.VerdictOnRevert | src/psv/rails.py:957-970 | for a reverted transaction: answered iff acceptable and the nonce is unspent, and then nothing is attributed to it |
| OracleVerdicts.AcceptedSettlement | src/psv/rails.py:921-964 | soundness: lone Transfer, nonce spent in that block, payer down by exactly the value, the verdict's meaning, and inflow equal to drifted outflow |
| OracleVerdicts.HonestSettlementAccepted | src/psv/rails.py:833-1016 | completeness: a settlement that is the only token activity of its distinct parties in its block is accepted with the net amount |
| PayeeIncome.OthersComeUnseen | src/psv/rails.py:802-830 | whatever else of an accepted settlement's block reached the payee is a drifted payment or a fee, since a mint or a legacy payment would race |
| PayeeIncome.ReceivedAccounted | src/psv/rails.py:921-964 | received plus what the payee paid out is the settlement's value less its fee plus drifted payments and fees into the payee; equal to value less fee iff those make up for what it paid out |
| PayeeIncome.ReceivedOwnExactlyWhen | src/psv/rails.py:921-964 | for a payee that paid nothing out: at least the settlement's own share, and exactly it iff nothing else came drifted or as a fee |
| PayeeIncome.LonePayeeIsExact | src/psv/rails.py:921-964 | for a payee other than the admin, neither paid on the drifted event nor paying in the block, the report is value less fee and the grade follows it |
| MaskedSettlement.MaskedChainIsReached | onchain/src/UpgradeableMockUSDC.sol:55-148 | the chain of the next row is reached from deployment by ordinary calls |
| MaskedSettlement.DriftMasksInflow | src/psv/rails.py:802-830 | a settlement accepted as consistently paid with 10 though its own net is 9 and the payer was minted 5 in that block |
| OracleRefinement.OracleImpliesConfirmer | src/psv/rails.py:921-949 | whenever the oracle proves a well-formed receipt, the confirmer returns exactly the same log index |
| ConfirmerAgreement.TruthIsWellFormed | src/psv/rails.py:754-830 | the receipt a truthful node gives is well-formed as the refinement asks |
| ConfirmerAgreement.TruthIsTruthful | src/psv/rails.py:802-830 | and its log queries are truthful |
| ConfirmerAgreement.ConfirmerConfirmsAccepted | src/psv/rails.py:921-949 | on any valid chain the confirmer confirms every settlement the oracle proves, at the same log index |
| JsonText.DumpUnique | src/psv/pqc/__init__.py:80-86 | JSON texts are uniquely readable: equal text, even with more behind it, means equal values |
| JsonReader.WrittenTextReads | src/psv/pqc/__init__.py:80-86 | an independent reader by RFC 8259 reads every written text back as exactly the value |
| JsonReader.SpellingsExactly | src/psv/pqc/__init__.py:80-86 | characters are escaped only where they must be, each in one way |
| Receipt.UniqueObject | src/psv/pqc/__init__.py:108-115 | builds the object iff no member name repeats |
| Receipt.UnsignedReceipt | src/psv/pqc/__init__.py:61-72 | the loop blanks exactly the two signature values, or raises where an entry is missing |
| Receipt.CanonDecides | src/psv/pqc/__init__.py:80-86 | sorted-key forms are equal iff the dictionaries are the same JSON value |
| Receipt.CanonicalTextDecides | src/psv/pqc/__init__.py:75-89 | canonical texts of profile values are equal iff the values are the same JSON |
| Receipt.SigningKeepsPayload | src/psv/pqc/__init__.py:61-89 | filling in the signatures changes neither the signed bytes nor whether there are any |
| Receipt.PayloadRespects | docs/pqc-receipt-v2.md:52-61 | member order never matters, at any depth |
| Receipt.PayloadInjective | docs/pqc-receipt-v2.md:52-61 | accepted receipts have equal bytes iff they are the same JSON value once both carry the same two signatures |
| CanonicalPayload.CanonAscends | src/psv/pqc/__init__.py:80-86 | at every depth the keys of the canonical form ascend by code points |
| CanonicalPayload.CanonIsSame | src/psv/pqc/__init__.py:80-86 | the canonical form is the same JSON value |
| CanonicalPayload.ProfileExactly | src/psv/pqc/__init__.py:92-105 | the profile holds iff no part is a fractional number and every key is seven-bit |
| CanonicalPayload.UnsignedExactly | src/psv/pqc/__init__.py:61-72 | unsigning succeeds iff both entries are objects, blanks exactly their signatures and keeps everything else |
| CanonicalPayload.PayloadExactly | src/psv/pqc/__init__.py:75-89 | the payload exists iff the unsigned receipt fits the profile, and is the literal prefix plus text that reads back as it, ascending |
| Calldata.CalldataRoundTrip | src/psv/chain.py:112-151 | decoding by the ABI rules returns all seven arguments up to hex case |
| Calldata.CalldataLayout | src/psv/chain.py:140-151 | one fixed length, and the dynamic offset points at the word holding the signature's length |
| Calldata.CalldataInjective | src/psv/chain.py:112-151 | equal calldata iff equal arguments up to hex case |
| Calldata.EncodedExactlyWhen | src/psv/chain.py:112-151 | encoded iff every argument is in its form and range, under the selector 0xcf092995 |
| Amounts.ToAtomicExact | src/psv/token_quirks.py:25-60 | returns n iff the text denotes exactly n over ten to the decimals and n is a uint256; the shortcuts never change that |
| Amounts.AtomicRoundTrip | src/psv/token_quirks.py:25-72 | to_atomic of from_atomic is the identity for every uint256 and every number of decimals |
| DecimalText.TextDenotes | src/psv/token_quirks.py:25-40 | a text of sign, digits, point and signed exponent is read as the number its places denote |
| DecimalText.FiniteTextIsSpelled | src/psv/token_quirks.py:25-40 | and no other text is read as a number |
| DecimalText.TextConvertsExactly | src/psv/token_quirks.py:25-60 | to_atomic of such a text answers n iff its number times ten to the decimals is n, a uint256 |
| DecimalText.WholeNumbers | src/psv/token_quirks.py:25-60 | likewise for a whole number |
| DecimalText.PrintedExactly | src/psv/token_quirks.py:63-72 | from_atomic prints the exact number without superfluous zeros or a bare point |
| Amounts.FeeShortfall | src/psv/token_quirks.py:75-92 | a fee leaves the recipient short by exactly the rounded-down fee |
| Amounts.ShortfallExactly | src/psv/token_quirks.py:75-92 | the shortfall is what is missing, the net is the gross less the fee rounded down |
| QuoteOption.SimulateAttacker | src/psv/quote_option.py:76-100 | the loop counts and sums the exercised rounds, and fails iff the total leaves uint256 |
| QuoteOption.GuardedLossBound | src/psv/quote_option.py:39-51 | the guarded loss is at most the tolerance applied to the locked prices exercised |
| QuoteOption.ZeroToleranceLosesNothing | src/psv/quote_option.py:39-51 | at tolerance zero the guarded loss is zero |
| QuoteOption.LossMonotone | src/psv/quote_option.py:76-100 | a looser guard never loses less, and no guard loses at least as much as any |
| QuoteOption.UnguardedLossIsOptionValue | src/psv/quote_option.py:32-36 | the unguarded loss is exactly the sum of the positive gains |
| QuoteOption.StaleMeans | src/psv/quote_option.py:39-51 | a quote is stale iff the fair price exceeds the locked one by more than the tolerated share |
| QuoteOption.LossExactly | src/psv/quote_option.py:76-100 | the loss is exactly the sum of the gains the guard lets through, and exercised are the rounds with one |
| Finality.FinalMeansDeepAndCanonical | src/psv/reorg.py:71-126 | final iff deep enough and the canonical hash is the settlement's; never final while it differs |
| Finality.ReasonsExactly | src/psv/reorg.py:71-126 | each reason exactly when, and what is refused |
| Finality.DeepBlocksStay | src/psv/reorg.py:36-49 | a block k deep under the highest head seen stays canonical under every allowed run |
| Finality.FinalityIsForever | src/psv/reorg.py:71-126 | once final with requirement k, canonical at its height forever, and never again assessed as reorged |
| Finality.OneDeeperBreaksFinality | src/psv/reorg.py:45-49 | the bound is tight: forks one block deeper can replace a final settlement |
| Journal.Directory.WriteExclusive | src/psv/run_record.py:136-153 | the partial-write loop ends with exactly the payload, or the file is gone and nothing else changed; it fails iff the path cannot be opened or a system call failed |
| Journal.Directory.ExclusiveRecordPath | src/psv/run_record.py:156-166 | the first free of ten thousand names, or nothing changes; none only on a failed call, a separator in a name or no free name |
| Journal.Directory.AppendJournal | src/psv/run_record.py:169-182 | a prefix of the line is appended, the whole line if it does not raise; it raises iff a call failed or the append was partial |
| Journal.Directory.WriteRunRecord | src/psv/run_record.py:185-212 | a new record file and its journal line, no other file touched; an unverified record writes nothing, and it raises only with cause |
| Journal.NameIsNotJournal | src/psv/run_record.py:194-212 | a record's name is never the journal's |
| Journal.NamesDiffer | src/psv/run_record.py:158-160 | different attempts try different names |
| Journal.VerifyRunJournal | src/psv/run_record.py:215-244 | the loop reports exactly the problem of every line, with its number |
| Journal.CleanMeansEveryLine | src/psv/run_record.py:220-244 | no findings iff every line checks out |
| JournalLines.CleanLineExactly | src/psv/run_record.py:220-244 | a line has no problem iff it names a plain file whose record parses, hashes to its own id and carries the line's id |
| JournalLines.ProblemsExactly | src/psv/run_record.py:220-244 | which problem exactly when |
| JournalLines.EditedRecordIsFound | src/psv/run_record.py:238-241 | an edited record is found unless the edit keeps the hash |
| JournalLines.NamesExactly | src/psv/run_record.py:156-194 | a record's files are named after its squeezed start and the first twelve characters of its digest, then numbered |
| JournalLines.EntriesExactly | src/psv/run_record.py:192-212 | the journal entry holds exactly six members of the record and the file name |
| JournalLines.LinesExactly | src/psv/run_record.py:220-221 | the journal is cut exactly at line ends, a carriage return with its line feed |
| JournalSafety.NextKeepsInv | src/psv/run_record.py:136-212 | every system call of every writer keeps ownership exclusive, files as written so far, and the journal whole lines |
| JournalSafety.StepKeepsOthers | src/psv/run_record.py:136-153 | a step, the failed writer's unlink included, changes only the writer's own file and the journal |
| JournalSafety.RecordsAreExclusive | src/psv/run_record.py:156-166 | in any interleaving no two calls get the same path, and each completed record is exactly its payload |
| JournalSafety.RecordsNeverChange | src/psv/run_record.py:136-212 | a completed record never changes, whatever others do or fail to do |
| JournalSolo.SoloRecords | src/psv/run_record.py:136-212 | an undisturbed call takes the first free name, writes its record and appends its line |
| JournalSolo.SoloFailureLeavesNothing | src/psv/run_record.py:150-153 | a failed write leaves the directory as it was |
| JournalSolo.NothingOfTheFailed | src/psv/run_record.py:136-212 | in any interleaving every new file belongs to a call that has not given up |
| JournalAudit.ReachableJournalsAreClean | src/psv/run_record.py:215-244 | every reachable journal has no findings |

## Left out

- HTTP and JSON-RPC transport, response envelopes, redirects, the CLI, the MCP and FastAPI servers and report rendering: plumbing.
- ECDSA, ML-DSA, Keccak and EIP-712 recovery; SHA-256 and json.loads enter as parameters or injective keys.
- Rail registry data, review anchors, runtime-code fingerprints and proxy slots: each enters the oracle as the outcome of its own check.
- The safety policy's chain, deployed-code and address-text checks (src/psv/safety.py) enter as one outcome, `Env.safe`; its payee, amount and zero-address checks are modelled.
- The oracle's finality tag selection: the finality block is any block of the chain.
- RPC answers that change during one oracle call, beyond what the final recheck compares, and reorgs inside the SUT's ledger runs.
- Interleaving finer than the steps of `ConcurrentPay`: a request's guards are one step, and so is recording an attempt and its broadcast; restores are not interleaved with payments.
- Gas, transaction fees and out-of-gas reverts of the contract; direct ERC-20 transfers, which the mock token does not have.
- Chain heights and log positions stay below 2**256.
- Python's limits on integer text, recursion depth and Decimal exponents, non-ASCII digits and whitespace, and argument type checks: arguments are typed.
- UTF-8 encoding of the canonical text: strings are sequences of Unicode scalar values.
- Base64url decoding of signatures, key registries and verify_receipt's structural checks: one-branch checks.
- Journal.Directory.AppendJournal: a short append may leave a partial line; the journal theorems assume appends are whole.
- Journal.Directory.WriteRunRecord: the log directory has no subdirectories, so a record whose name would hold a separator is never opened.
- Healing.RestoreAndHealClosesGap: the wall clock of payments is after 1970, when recovered orders expired.
- Funding.FundedAtMostOnce: for runs without restore in which no log query that is made fails, on the legacy event; LostLogQuery covers a failing query, ConcurrentPay overlapping requests, RestoredFunding restores.
- RestoredFunding.FundedAtMostOnceWithRestores: a restored backup must also hold the orders all of whose broadcasts failed.
- NoPhantomCredit.PaidOrdersAreDistinct: for ordinary orders; with a recovered one it can fail, and SharedIdentity says exactly when.
- SharedIdentity.SharesExactlyWhen: the wall clock of payments is after 1970, when recovered orders expired.
- ConcurrentPay.FundedAtMostOnceConcurrently: likewise without restores, with every log query that is made answered, on the legacy event.
- build_run_record, URL redaction, metered divergence, status parsing, SVM metadata, load timing and entropy checks: easy members.
