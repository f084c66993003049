# Verification of the crypto processing API's money path and codecs

This project models the custody service's money path as one step system over a double-entry
ledger, together with the address and invoice codecs the money path relies on, and proves what
holds over every run. Verify it with `dafny verify dfyconfig.toml`.

## How the model is laid out

**Ledger.** `Ledger.dfy` holds account rows, append-only journal entries and `post_entry` with its
refusals, uniqueness and sign CHECKs, as a function on the books and as the class `LedgerStore`
whose methods are proved against it. `LedgerChecker.dfy` is the independent consistency check.

**Withdrawals.** `Withdrawals.dfy` gives the effect of each operation on one row and the books;
`WithdrawalBooks.dfy` proves that each moves any selection of accounts by exactly the change in
what the row has posted. `WithdrawalSession.dfy` has the operations as methods that update rows
and ledger in place and commit or roll back as a whole. `PayoutSubmitter.dfy` has the payout
worker's two sweeps, proved to be runs of the step system.

**Deposits.** `Deposits.dfy`, `DepositBooks.dfy` and `DepositSession.dfy` do the same for the one
transition function and the administrator's resolver. `Webhooks.dfy` is the event queue that
triggers both.

**The money path.** `MoneyPath.dfy` puts them in one state with the payout rail and the workers.
A step is one committed transaction; the worker's claim, rail call and record are separate steps,
the rail may create a payout or not and answer or not, and a crash may fall between any two.
Snapshots and payout reports are arbitrary, so they may be stale, repeated or out of order.
`MoneyInvariants.dfy`, `MoneyFlow.dfy` and `MoneyRuns.dfy` prove the inductive invariant;
`Custody.dfy`, `Reserve.dfy`, `Solvency.dfy`, `Submission.dfy`, `References.dfy`, `Velocity.dfy`,
`Adoption.dfy`, `Orphans.dfy`, `ManualBacked.dfy` and `Credits.dfy` draw the results from it.
`Scenarios.dfy` has the concrete reachable states from which those results show where a promise ends.

**Requests.** `Idempotency.dfy` is the key table, with a claim that has the effect of one instant
whatever commits between its statements. `ExactlyOnce.dfy` is the protocol as a step system over any
number of attempts, and `Endpoints.dfy` the two create handlers, each of whose transactions is proved
to be one step of it.

**Codecs.** `Bech32.dfy` (BIP 173, section "Bech32"; BIP 350), `BitGroups.dfy` (BIP 173, section
"Segwit address format"), `Base58.dfy`, `Addresses.dfy`, `Bolt11.dfy` (BOLT 11, sections
"Human-Readable Part", "Data Part" and "Tagged Fields"), `TronLog.dfy`, `Tron.dfy` and
`Amounts.dfy`. `Numerals.dfy`, `Texts.dfy`, `Sums.dfy` and `Wrappers.dfy` are shared arithmetic.

## What the code leaves to its environment

A state is reachable (`MoneyPath.Reachable`) when a history of any number of steps leads to it from
seeded accounts, in any order, each of them *admissible* (`MoneyPath.Admissible`). Admissible steps
satisfy these; the code does not enforce them.

- **A1.** Between a worker's claim of a row and its record, no admin release, cancelled payout or
  crash sweep touches that row, and a sweep's decision on a row is not interleaved with another
  change to it. `_record_submission` and `resolve_stuck` do not look at the status again after
  locking. `Submission.StaleDecisionRevives` shows what one interleaving does.
- **A2.** Every created payout is listed with its `withdrawal_id` metadata and its own amount. This
  is built into the rail: payouts are never unlisted and never lose the id they carry.
- **A3.** A payout that was cancelled, or whose hold was released, is never reported completed.
  `apply_payout_state` posts the settle entry before it checks the transition;
  `Submission.LateCompletionSettles` shows the effect.
- **A4.** When a request handler comes back from the rail, the deposit's invoice and status are still
  what it read before the call. `attach_invoice` and `mark_failed` write through the session's own
  copy, without a lock or a second read. `Credits.StaleAttachMatters` and
  `Credits.StaleWriteLeavesReview` say exactly when an older copy makes a difference,
  `Credits.StaleAttachKeeps` exactly when the books and the rows still belong together after it, and
  `Credits.SlowHandlerUndoesSettlement` is a run.

Deduct mode (`MoneyPath.Deducting`, `MoneyPath.ReachableDeducting`) charges users the network fee,
and no rail reports a fee above what the user was charged. Only full reserve and solvency need it.

## Where the code and its documentation part

- `to_units` promises to refuse more precision than an asset holds. `Decimal.scaleb` rounds to 28
  significant digits first, so a longer text can be accepted at a rounded value
  (`Amounts.ExcessPrecisionIsAccepted`); `Amounts.AcceptedIsExact` gives the exact condition.
- A payment that parses to zero violates a CHECK on the payment row, so applying the snapshot
  fails as a whole and none of its other payments is recorded: exactly then
  (`DepositBooks.SnapshotAppliesUnlessZero`), and for one coin paid beside a zero
  (`DepositBooks.ZeroBlocksTheCoin`).
- `complete` overwrites a stored response. When a slow original finishes after a takeover, a
  client that was already answered sees another response on its next retry
  (`ExactlyOnce.SlowOriginalOverwrites`), and the invoice it was answered with is replaced
  (`Endpoints.SlowOriginalReplacesInvoice`); `ExactlyOnce.RecordsAreStable` says exactly when.
- After a definite rejection the key's record stays in progress, so a later attempt is answered 201
  with an invoice on a failed deposit (`Endpoints.RejectedThenAnswered`). Which deposits credit what a
  settled invoice received is `DepositBooks.SettledPaymentIsCredited`.
- An adopted submission differs from a direct one exactly when the rail reports no fee and the wallet
  fee was not what the user paid: under `absorb`, and for a non-zero flat fee
  (`Adoption.AdoptionRefinesSubmission`). From a reachable state both settle and their balances
  differ (`Adoption.UnreportedFeeParts`, `Adoption.UnreportedFeeExamples`).
- A silent create can be adopted only while its row is `submitting`
  (`Orphans.AdoptableExactlyWhileSubmitting`). A payout event that arrives before the sweep moves the
  row on without a submit entry (`Orphans.EventsOvertakeTheSweep`), and from then on it is never
  recorded or settled, however often its payout completes (`Orphans.OrphansAreNeverSettled`).
- The velocity window compares the process clock, read before the gate lock, with the database's
  row timestamps. When the first may run ahead of the second by `skew`, a cap holds for every window
  of a length if and only if that length is at most 24 hours and one tick, less the skew
  (`Velocity.VelocityCapExact`), so the promised 24 hours hold exactly when the skew is at most one
  tick. Beyond that, two withdrawals of the whole cap are approved without a human in one window
  (`Velocity.TwoCapsInOneWindow`). The timestamps need not be monotone.
- The webhook path applies invoices with a zero pooled tolerance, so the tolerance is a parameter
  of every snapshot here.

## Model

| member | source | states |
|---|---|---|
| Solvency.NothingIsRefusedForFunds | src/crypto_processing_api/services/withdrawals.py:472-617 | In any state reachable in deduct mode, no hold, submission, settlement, reversal or release step rolls back because a balance CHECK refused its entry |
| Reserve.HotWalletCoversAvailable | src/crypto_processing_api/services/withdrawals.py:3-19 | In any state reachable in deduct mode the hot wallet holds at least what users have available, every other term of its decomposition being non-negative |
| Custody.HotWalletDecomposes | src/crypto_processing_api/services/withdrawals.py:3-19 | In any reachable state, in either fee mode, hot wallet = available + gross of unsubmitted holds + (gross − committed) in flight + (fee − booked fee) settled |
| Custody.HeldIsOutstandingGross | src/crypto_processing_api/services/withdrawals.py:492-678 | In any reachable state a user's held balance is the summed gross of their withdrawals that neither settled nor were released |
| Custody.InFlightIsOutstandingCommitments | src/crypto_processing_api/services/withdrawals.py:24-27 | In any reachable state payouts_in_flight is the sum of the amounts committed by submit entries that neither settled nor were reversed |
| Custody.NeverSettledAndReleased | src/crypto_processing_api/services/withdrawals.py:736-812 | No reachable withdrawal is both settled and released, and none settles without a submit entry |
| Custody.UserFundsConserved | src/crypto_processing_api/services/withdrawals.py:492-565 | A user's available + held is always their credited deposits less the gross of their settled withdrawals |
| Custody.CustodyExceedsObligationsByMargin | src/crypto_processing_api/ledger/invariants.py:111-141 | Per asset, custody less user obligations is the sum over settled withdrawals of fee − booked network fee, whoever pays the network fee |
| Custody.CheckerAcceptsReachableBooks | src/crypto_processing_api/ledger/invariants.py:144-166 | The consistency check accepts the books of every reachable state of the money path |
| Submission.NoDoubleSubmission | src/crypto_processing_api/workers/payout_submitter.py:60-140 | Over every run with crashes, silent creates, claims and recoveries: at most one non-cancelled payout carries a withdrawal's id, and none while it is requested, pending approval or approved |
| Submission.EarlyReleaseIsSafeForever | src/crypto_processing_api/services/withdrawals.py:159-166 | In any history, a hold given back by a rejection, an admin release of an unclaimed row, or a worker that gave up before calling the rail belongs to a row that no live payout pays, at that point or at any later one |
| Submission.EarlyReleaseBuries | src/crypto_processing_api/workers/payout_submitter.py:153-183 | The release step itself: the row is refunded, no live payout carries its id and no worker attempts it |
| Submission.StaleDecisionRevives | src/crypto_processing_api/workers/payout_submitter.py:267-268 | A sweep decision that reaches an already refunded row makes it claimable again exactly when no payout and no lookalike is found, which is why the decision must not be interleaved (A1) |
| Submission.LateCompletionSettles | src/crypto_processing_api/services/withdrawals.py:783-786 | A report applied to a refunded row settles it as well exactly when the report is a completion, which is why completions after a release are assumed away (A3) |
| Velocity.VelocityCapExact | src/crypto_processing_api/services/withdrawals.py:327-374 | With fixed caps, in every history whose process clock runs ahead of the row timestamps by at most the skew, still-counting auto-approved gross stays within the cap in every window of a length, for the asset and for each user, if and only if the window is empty or at most 24 h and one tick less the skew; so for 24 h if and only if the skew is at most one tick |
| Velocity.VelocityCapHolds | src/crypto_processing_api/services/withdrawals.py:277-297 | The safe half: in any reachable state and every window within that limit, at most the asset cap, and at most the user cap when set |
| Velocity.TwoCapsInOneWindow | src/crypto_processing_api/services/withdrawals.py:327-374 | The other half: for every longer window and any cap, a reachable state in which two withdrawals approved without a human add up to twice the cap inside it |
| Adoption.AdoptionRefinesSubmission | src/crypto_processing_api/workers/payout_submitter.py:186-201 | A submission rebuilt from the listed payout ends, once settled, with every balance a direct recording gives if and only if the rail reported its fee or the wallet fee was what the user was charged; with a deducted miner fee it always was |
| Adoption.UnreportedFeeParts | src/crypto_processing_api/workers/payout_submitter.py:281-294 | Whenever the wallet fee is not what the user paid and the rail reports none, a reachable state from which the direct and the adopted run both settle and their balances differ |
| Adoption.UnreportedFeeExamples | src/crypto_processing_api/workers/payout_submitter.py:281-294 | So it is with an absorbed miner fee and with a flat fee of one unit on two |
| Orphans.AdoptableExactlyWhileSubmitting | src/crypto_processing_api/workers/payout_submitter.py:228-276 | In any reachable state, a live payout without a recording is adopted by the sweep exactly while its row is submitting, its amount can be read and the ledger takes the entry |
| Orphans.OrphansAreNeverSettled | src/crypto_processing_api/services/withdrawals.py:492-503 | A row that moved past submitting without a submit entry has none, and no settle entry, at any later point of any history |
| Orphans.EventsOvertakeTheSweep | src/crypto_processing_api/workers/webhook_processor.py:147-171 | A payout event that arrives between a silent create and the sweep leaves a reachable state with a live payout, no submit entry, a sweep that does nothing and a completion that is refused |
| Adoption.SubmitThenSettle | src/crypto_processing_api/services/withdrawals.py:511-546 | Submit then settle moves hold +gross, hot −(net + w), expense +w, income −fee, whatever had been estimated |
| ManualBacked.ManualSendsAreBacked | src/crypto_processing_api/services/withdrawals.py:1178-1241 | Every operator-sent withdrawal in broadcast or confirmed has its own successful transaction holding a hot-wallet transfer of exactly its net to its destination; together they never exceed the wallet's on-chain outflow |
| ManualBacked.ConfirmationHadDepth | src/crypto_processing_api/services/withdrawals.py:1244-1299 | A manual row is confirmed only by a poll of that row, from broadcast, with its transaction on the chain at the required depth |
| References.PayoutsFindOneRow | src/crypto_processing_api/workers/webhook_processor.py:147-171 | No two reachable withdrawals name one payout, and a payout that a row names carries that row's id |
| MoneyRuns.ReachableKept | src/crypto_processing_api/services/withdrawals.py:3-19 | The invariant behind all of these: in any reachable state the ledger is consistent, every row is sound, workers, rows and payouts agree, and any selection of accounts sums to the effects of the rows |
| MoneyRuns.NextKept | src/crypto_processing_api/workers/payout_submitter.py:48-150 | Every admissible step keeps that invariant |
| MoneyRuns.RebuiltQuote | src/crypto_processing_api/workers/payout_submitter.py:281-294 | A quote rebuilt from a payout we sent splits the gross exactly and commits all of it, up to the ceiling on readable amounts; above it the rebuild fails |
| WithdrawalBooks.PlaceHoldAccounted | src/crypto_processing_api/services/withdrawals.py:300-403 | A placed hold moves any selection of accounts by exactly the new row's effect and keeps the ledger consistent |
| Scenarios.HoldIsPlaced | src/crypto_processing_api/services/withdrawals.py:300-403 | A hold on funds that are there is placed, moves them from available to held, and is approved without a human exactly when no gate asks for one |
| WithdrawalBooks.RecordSubmissionAccounted | src/crypto_processing_api/workers/payout_submitter.py:186-201 | Recording a submission on a row without entries commits exactly the quoted amount and moves the books by the change in the row's effect |
| WithdrawalBooks.SettleAccounted | src/crypto_processing_api/services/withdrawals.py:492-565 | Settling moves the books by the change in the row's effect and books the actual fee, or the estimate when none is reported |
| WithdrawalBooks.ReleaseHoldAccounted | src/crypto_processing_api/services/withdrawals.py:620-678 | Releasing moves back exactly what holding and submitting moved, and refunds the row |
| WithdrawalBooks.ApplyPayoutStateAccounted | src/crypto_processing_api/services/withdrawals.py:736-812 | Any reported payout state keeps the books equal to the rows, save a completion of a failed or released row |
| WithdrawalBooks.PollManualAccounted | src/crypto_processing_api/services/withdrawals.py:1244-1299 | Polling an operator-sent withdrawal keeps the books equal to the rows |
| WithdrawalBooks.SubmitManualAccounted | src/crypto_processing_api/services/withdrawals.py:1143-1175 | Handing an approved row to an operator commits exactly the quoted amount |
| Withdrawals.ReleasableIsRefundable | src/crypto_processing_api/services/withdrawals.py:655-666 | From every releasable status there is a legal route to refunded |
| MoneyFlow.EventStatus | src/crypto_processing_api/services/withdrawals.py:772-786 | A report changes the status only along the matrix, sets a missing transaction id only to a free one, and a row it confirms has a settle entry |
| WithdrawalSession.Session.SumWindow | src/crypto_processing_api/services/withdrawals.py:277-297 | The rolling-window sum over the rows |
| WithdrawalSession.Session.PlaceHold | src/crypto_processing_api/services/withdrawals.py:300-403 | Gates, checks, row and hold entry in place; a refusal leaves books and rows as they were |
| WithdrawalSession.Session.PostSubmit | src/crypto_processing_api/services/withdrawals.py:472-489 | Posts the commitment and links it, or changes nothing |
| WithdrawalSession.Session.CommittedFromEntry | src/crypto_processing_api/services/withdrawals.py:568-575 | Reads the committed amount back off the submit entry |
| WithdrawalSession.Session.SettleInto | src/crypto_processing_api/services/withdrawals.py:528-556 | The settle postings, appended line by line as the fee, the charge and the drift ask for |
| WithdrawalSession.Session.PostSettle | src/crypto_processing_api/services/withdrawals.py:492-565 | Posts the settle entry with the fee drift, or changes nothing |
| WithdrawalSession.Session.PostUnsubmit | src/crypto_processing_api/services/withdrawals.py:578-597 | Reverses the in-flight commitment, or changes nothing |
| WithdrawalSession.Session.PostRelease | src/crypto_processing_api/services/withdrawals.py:600-617 | Posts the release entry and links it, or changes nothing |
| WithdrawalSession.Session.TransitionRow | src/crypto_processing_api/services/withdrawals.py:439-454 | Moves a row along the matrix, ignores a step to the same status and refuses any other |
| WithdrawalSession.Session.MarkRow | src/crypto_processing_api/services/withdrawals.py:651-670 | Routes a releasable row to refunded and records who released it and on what words |
| WithdrawalSession.Session.ReleaseHold | src/crypto_processing_api/services/withdrawals.py:620-678 | Release legality, un-submit, release and routing as one commit or nothing |
| WithdrawalSession.Session.ApplyPayoutState | src/crypto_processing_api/services/withdrawals.py:736-812 | Mismatch refusals, transaction id, settlement and advance as one commit or nothing |
| WithdrawalSession.Session.TxidIsFree | src/crypto_processing_api/ledger/models.py:393-395 | Whether no other withdrawal holds the transaction id |
| WithdrawalSession.Session.Approve | src/crypto_processing_api/services/withdrawals.py:818-850 | Compare-and-swap out of the approval queue |
| WithdrawalSession.Session.Reject | src/crypto_processing_api/services/withdrawals.py:853-894 | Compare-and-swap to rejected and the release, as one commit or nothing |
| WithdrawalSession.Session.SubmitManual | src/crypto_processing_api/services/withdrawals.py:1143-1175 | Hands an approved row to an operator with its commitment posted, or changes nothing |
| WithdrawalSession.Session.MarkBroadcast | src/crypto_processing_api/services/withdrawals.py:1178-1241 | Records a normalised, unused, verified transaction id, or changes nothing |
| WithdrawalSession.Session.PollManual | src/crypto_processing_api/services/withdrawals.py:1244-1299 | Re-verifies, checks the depth, settles and confirms, or changes nothing |
| WithdrawalSession.Session.ClaimForSubmission | src/crypto_processing_api/services/withdrawals.py:982-992 | Exactly one caller moves an approved payout row to submitting |
| WithdrawalSession.Session.Record | src/crypto_processing_api/workers/payout_submitter.py:186-201 | Reference, amounts, ledger entry and status in one commit, or nothing |
| PayoutSubmitter.FindForWithdrawal | src/crypto_processing_api/services/backends.py:240-269 | The last listed payout with this withdrawal's id, and every uncancelled payout to the destination that carries none |
| PayoutSubmitter.Submitter.SubmitOne | src/crypto_processing_api/workers/payout_submitter.py:60-148 | One candidate's turn is exactly its claim, abandon, create and record steps, whatever the rail does |
| PayoutSubmitter.Submitter.AbandonBeforeSending | src/crypto_processing_api/workers/payout_submitter.py:153-183 | Giving up before the rail call is exactly the abandon step |
| PayoutSubmitter.Submitter.SubmitApproved | src/crypto_processing_api/workers/payout_submitter.py:48-150 | The whole sweep is a run of the step system, and its report counts each candidate by where its own turn took it |
| PayoutSubmitter.Submitter.ResolveOne | src/crypto_processing_api/workers/payout_submitter.py:228-276 | Adopt, freeze or return to approved, decided by what the rail lists |
| PayoutSubmitter.Submitter.ResolveStuck | src/crypto_processing_api/workers/payout_submitter.py:204-278 | The crash sweep decides on every selected row in turn, stops at the first error, and its report counts each row by what was decided about it |
| PayoutSubmitter.CrashReportAddsUp | src/crypto_processing_api/workers/payout_submitter.py:204-278 | That report counts one outcome for every row whose backend could be reached |
| PayoutSubmitter.SweepIsARun | src/crypto_processing_api/workers/payout_submitter.py:204-278 | On rows that are stuck when selected, once each, the crash sweep is a run of resolving steps |
| PayoutSubmitter.SweepsStayReachable | src/crypto_processing_api/workers/payout_submitter.py:48-278 | A sweep that starts in a reachable state and takes only admissible steps ends in a reachable state, so every result above holds of it |
| Credits.CreditedExactlyOnce | src/crypto_processing_api/services/deposits.py:396-463 | For any interleaving of webhooks, polls and resolutions with any stale snapshots: one row and at most one credit per payment, each credited row's entry put exactly its amount into custody, and the deposit's total is the sum of its credited rows and of the journal's credits of its invoice |
| Credits.EveryCreditHasOneOwner | src/crypto_processing_api/ledger/models.py:229-232 | Every deposit credit in the journal belongs to exactly one deposit, and no two credits share a source |
| Credits.ReviewIsSticky | src/crypto_processing_api/services/deposits.py:567-570 | No admissible step but an administrator's resolution of that very deposit credits it or takes it out of review |
| Credits.ReappliedSnapshotChangesNothing | src/crypto_processing_api/services/deposits.py:466-627 | Applying a final snapshot a second time changes nothing in the whole state |
| DepositBooks.NoSilentDrop | src/crypto_processing_api/services/deposits.py:534-620 | After a settled, expired or invalid snapshot every readable payment has a row, and every settled one is credited or the deposit is in review |
| DepositBooks.ReplayChangesNothing | src/crypto_processing_api/services/deposits.py:466-627 | Re-applying a final snapshot changes no row, credit, status or entry |
| DepositBooks.ZeroBlocksTheCoin | src/crypto_processing_api/ledger/models.py:331 | A settled payment of one coin is credited from its snapshot, and not when a payment reading 0 stands beside it |
| DepositBooks.SettledPaymentIsCredited | src/crypto_processing_api/services/deposits.py:556-594 | A settled invoice's payment ends up credited exactly when it already was or the deposit is neither failed, dismissed nor in review |
| Credits.StaleAttachMatters | src/crypto_processing_api/services/deposits.py:243-268 | A handler's write from an older copy does what a fresh one would exactly when it replaces no other invoice and brings back no status |
| Credits.StaleWriteLeavesReview | src/crypto_processing_api/services/deposits.py:320-331 | A handler's write takes a deposit out of review exactly when the handler had read it in creating |
| Credits.StaleAttachKeeps | src/crypto_processing_api/services/deposits.py:243-268 | Such a write moves no balance, and keeps the ledger invariant exactly when no credited payment loses its invoice |
| Credits.SlowHandlerUndoesSettlement | src/crypto_processing_api/services/deposits.py:282-317 | A reachable settled and credited deposit that the handler which opened it takes back to pending under another invoice, or fails |
| DepositBooks.SnapshotAppliesUnlessZero | src/crypto_processing_api/ledger/models.py:331 | A snapshot is applied exactly when it is about the right invoice and none of its readable payments is zero |
| DepositBooks.ApplyInvoiceStateAccounted | src/crypto_processing_api/services/deposits.py:466-627 | Any snapshot moves the books by exactly the change in the credited total and never changes a recorded amount or credit |
| DepositBooks.AutomationNeverLeavesReview | src/crypto_processing_api/services/deposits.py:567-570 | A snapshot applied in review leaves books, status and credited total as they were |
| DepositBooks.ResolveReviewAccounted | src/crypto_processing_api/services/deposits.py:680-772 | An administrator moves the books by at most the one payment named, at the amount first recorded, and leaves review settled or dismissed |
| DepositBooks.RecordAllAccounted | src/crypto_processing_api/services/deposits.py:573-594 | Recording a list of payments leaves each recorded, credits exactly those due, and keeps books and rows equal |
| DepositBooks.CreditAccounted | src/crypto_processing_api/services/deposits.py:396-433 | Crediting a row posts one new entry of exactly its amount |
| DepositSession.Session.UpsertPayment | src/crypto_processing_api/services/deposits.py:436-463 | Insert-or-ignore: the first recorded amount stays |
| DepositSession.Session.CreditPayment | src/crypto_processing_api/services/deposits.py:396-433 | Posts the credit, or adopts the entry that already exists |
| DepositSession.Session.Read | src/crypto_processing_api/services/deposits.py:534-554 | What of a snapshot counts, and what of it parses |
| DepositSession.Session.RecordPayments | src/crypto_processing_api/services/deposits.py:573-594 | The payment loop |
| DepositSession.Session.Settle | src/crypto_processing_api/services/deposits.py:596-620 | The final move, with a fully credited settled deposit kept out of review |
| DepositSession.Session.ApplyInvoiceState | src/crypto_processing_api/services/deposits.py:466-627 | The transition as one commit or nothing |
| DepositSession.Session.AttachInvoice | src/crypto_processing_api/services/deposits.py:243-268 | Binds the invoice and leaves creating, through the handler's copy of the row |
| DepositSession.Session.MarkFailed | src/crypto_processing_api/services/deposits.py:320-331 | Fails a deposit that the handler's copy still has in creating, and no other |
| DepositSession.Session.ResolveReview | src/crypto_processing_api/services/deposits.py:680-772 | Dismiss, or credit one settled payment at the backend's amount, as one commit or nothing |
| Ledger.LedgerStore.PostEntry | src/crypto_processing_api/ledger/service.py:279-357 | One balanced entry and its postings, or the error in the order the code finds it and nothing changed |
| Ledger.LedgerStore.Aggregate | src/crypto_processing_api/ledger/service.py:302-310 | Deltas per account, a zero posting refused before an unbalanced list |
| Ledger.LedgerStore.LockAccounts | src/crypto_processing_api/ledger/service.py:255-276 | Every account exists before any is compared with the entry's asset |
| Ledger.LedgerStore.WithDeltas | src/crypto_processing_api/ledger/models.py:187-194 | The updated rows, or a refusal by the sign CHECKs |
| Ledger.LedgerStore.GetOrCreateAccount | src/crypto_processing_api/ledger/service.py:120-168 | Provisions one row per asset, kind and user, and refuses a user on a system kind or none on a user kind |
| Ledger.PostKeepsConsistent | src/crypto_processing_api/ledger/service.py:279-357 | A successful entry keeps every balance equal to its postings, entries balanced and unique, and signs right |
| Ledger.PostEffect | src/crypto_processing_api/ledger/service.py:279-357 | An entry moves any selection of accounts by exactly what it posts to it |
| LedgerChecker.CheckerAcceptsEveryRun | src/crypto_processing_api/ledger/invariants.py:144-166 | After any sequence of successful and failing calls the consistency check accepts, and a later book extends an earlier one |
| LedgerChecker.SumsExchange | src/crypto_processing_api/ledger/invariants.py:72-97 | Summing by account equals summing by entry |
| LedgerChecker.AssetCheckFollows | src/crypto_processing_api/ledger/invariants.py:160-166 | Balanced single-asset entries and derived balances make every asset sum to zero |
| LedgerChecker.CustodyReports | src/crypto_processing_api/ledger/invariants.py:111-141 | One report per asset, each figure the sum of its kind |
| LedgerChecker.AssertLedgerConsistent | src/crypto_processing_api/ledger/invariants.py:144-166 | Accepts exactly when entries balance, balances derive and assets sum to zero, and raises the first of the three that fails |
| Fees.QuotesAreSound | src/crypto_processing_api/services/fees.py:114-170 | A usable quote splits the gross exactly, and commits no more than the gross exactly when the user pays the fee or there is none |
| Amounts.UnitsRoundTrip | src/crypto_processing_api/core/amounts.py:22-60 | Writing units and reading them back gives the units, up to the ceiling above which reading refuses |
| Amounts.ReadsExactAmounts | src/crypto_processing_api/core/amounts.py:22-53 | For text whose digits fit the decimal precision, reading accepts exactly the whole non-negative amounts in range |
| Amounts.AcceptedIsExact | src/crypto_processing_api/core/amounts.py:44-48 | An accepted amount is the exact value exactly when rounding to 28 significant digits dropped nothing |
| Amounts.ExcessPrecisionIsAccepted | src/crypto_processing_api/core/amounts.py:44-48 | A text with 29 significant digits is accepted at a rounded value |
| Amounts.RoundUpCovers | src/crypto_processing_api/core/amounts.py:68-89 | Millisatoshi round up to whole satoshis and by less than one |
| ExactlyOnce.AtMostOneResourcePerKey | src/crypto_processing_api/core/idempotency.py:101-186 | Between purges any number of concurrent, retried, taken-over or crashed attempts with one key and endpoint commit at most one withdrawal or deposit row, and every committed record names it |
| ExactlyOnce.OneWinnerPerWindow | src/crypto_processing_api/core/idempotency.py:158-186 | Claims and takeovers of one key are more than the stale window apart |
| ExactlyOnce.CompletedReplays | src/crypto_processing_api/core/idempotency.py:149-156 | A completed key replays its stored response to the same body, refuses another body, and neither changes anything |
| ExactlyOnce.RecordsAreStable | src/crypto_processing_api/core/idempotency.py:198-219 | Until purged a completed record keeps its hash and row; its response changes exactly when an attempt still working on the key finishes with another one |
| ExactlyOnce.OneStoredResponse | src/crypto_processing_api/core/idempotency.py:198-219 | Once completed with nobody working on it, a key answers every retry with the same response until it is purged |
| ExactlyOnce.WithdrawalsAreQuiet | src/crypto_processing_api/api/withdrawals.py:157-184 | A committed withdrawal key is always in that state |
| ExactlyOnce.TakeoversKeepTheResource | src/crypto_processing_api/api/deposits.py:135-149 | An in-progress record keeps its row through any number of takeovers |
| ExactlyOnce.SlowOriginalOverwrites | src/crypto_processing_api/core/idempotency.py:198-219 | An original that outlives its takeover replaces the response the takeover stored |
| Idempotency.BeginIsAtomic | src/crypto_processing_api/core/idempotency.py:123-186 | Whatever other transactions commit between its statements, a claim is refused as in flight or has the effect of one instant |
| ExactlyOnce.ClaimsReadOneRecord | src/crypto_processing_api/core/idempotency.py:143-184 | In any history, a stale record that a claim takes over is the record it read |
| Idempotency.KeyTable.BeginRequest | src/crypto_processing_api/core/idempotency.py:101-186 | Three passes of insert, read back and conditional takeover among other transactions |
| Idempotency.KeyTable.AttachResource | src/crypto_processing_api/core/idempotency.py:189-195 | Attaches the row and touches the record |
| Idempotency.KeyTable.CompleteRequest | src/crypto_processing_api/core/idempotency.py:198-219 | Stores the response over whatever is there |
| Idempotency.KeyTable.Purge | src/crypto_processing_api/core/idempotency.py:222-232 | Drops exactly the records past their time to live, and counts them |
| Endpoints.HeldIsAStep | src/crypto_processing_api/api/withdrawals.py:101-185 | A withdrawal request is one step of the protocol, and adds a withdrawal with its hold exactly when the protocol creates a row, under the id the record names |
| Endpoints.OpenedIsAStep | src/crypto_processing_api/api/deposits.py:125-149 | The first commit of a deposit request is one step of the protocol and starts an attempt on the row it names |
| Endpoints.ClosedIsAStep | src/crypto_processing_api/api/deposits.py:151-200 | The second commit is one step: it finishes that attempt or gives it up without touching the key |
| Endpoints.RejectedThenAnswered | src/crypto_processing_api/api/deposits.py:155-181 | After a definite rejection the next attempt past the stale window is answered 201 on a failed deposit that no view of its invoice moves |
| Endpoints.SlowOriginalReplacesInvoice | src/crypto_processing_api/services/deposits.py:282-317 | A slow original that closes after its takeover replaces the invoice the client was answered with and puts the status back to pending |
| Endpoints.WithdrawalApi.CreateWithdrawal | src/crypto_processing_api/api/withdrawals.py:101-185 | Claim, hold, row and response in one commit; a replay or a refusal changes nothing |
| Endpoints.DepositApi.OpenDeposit | src/crypto_processing_api/api/deposits.py:125-149 | The first commit: claim and row together, or a takeover that picks up the row the record names |
| Endpoints.DepositApi.CloseDeposit | src/crypto_processing_api/api/deposits.py:151-200 | The second commit: invoice and response, a definite failure with the record left in progress, or nothing |
| Tron.Verify | src/crypto_processing_api/services/backends.py:473-525 | Accepts exactly when a successful transaction holds a transfer matching contract, sender, recipient and amount |
| TronLog.ParseTransfers | src/crypto_processing_api/gateway/trongrid.py:161-192 | The transfers of a log: other events and unreadable entries skipped, order kept |
| TronLog.ParsingUndoesEmitting | src/crypto_processing_api/gateway/trongrid.py:161-192 | Reading a log gives back every list of transfers written to it |
| Webhooks.Processor.ProcessPending | src/crypto_processing_api/workers/webhook_processor.py:184-241 | One pass handles exactly the oldest claimable events up to its limit, once each, and its report counts them |
| Webhooks.NobodyIsStarved | src/crypto_processing_api/workers/webhook_processor.py:69-79 | A pass with enough claims tries every unlocked received event exactly once, whatever the others do |
| Webhooks.GivenUpAtTheLimit | src/crypto_processing_api/workers/webhook_processor.py:244-272 | An event that keeps raising is given up at exactly its last attempt |
| Bech32.ComputePolymod | src/crypto_processing_api/core/addresses.py:69-77 | The checksum loop |
| Bech32.BurstIsDetected | src/crypto_processing_api/core/addresses.py:69-77 | Two data parts under one prefix that differ in at most six consecutive symbols never have the same polymod, for any length |
| Bech32.PolyLinear | src/crypto_processing_api/core/addresses.py:69-77 | The polymod is linear over exclusive or |
| Bech32.ChecksumMeets | src/crypto_processing_api/core/addresses.py:88-103 | A data part followed by its six checksum symbols meets the constant |
| Bech32.SplitUndoesAddress | src/crypto_processing_api/core/addresses.py:88-103 | Splitting an address text gives back its prefix, data and checksum |
| Addresses.TypoIsRejected | src/crypto_processing_api/core/addresses.py:124-149 | No corruption of at most six consecutive symbols of an accepted segwit address is accepted, unless it turns version 0 into another version or back |
| Addresses.NetworksAreSeparate | src/crypto_processing_api/core/addresses.py:180-201 | What one network accepts, another accepts only as the same kind under the same prefix or version byte, so nothing is valid both on mainnet and on a test network |
| Addresses.MistypedIsRefused | src/crypto_processing_api/core/addresses.py:180-201 | Validation refuses, on every network, any corruption of at most six consecutive symbols of an accepted segwit address that keeps version 0 apart from the others |
| Addresses.SegwitAddressIsValid | src/crypto_processing_api/core/addresses.py:124-149 | Every program its version allows has an address that is accepted on its network |
| Addresses.Base58Accepts | src/crypto_processing_api/core/addresses.py:164-177 | A base58 address is accepted exactly when it encodes a version byte of the network, an account and their digest |
| BitGroups.ConvertBits | src/crypto_processing_api/core/addresses.py:106-121 | The regrouping loop |
| BitGroups.ConvertsExactly | src/crypto_processing_api/core/addresses.py:106-121 | The conversion returns r exactly when the input is the zero-padded regrouping of r, bit for bit |
| BitGroups.RefusesExactly | src/crypto_processing_api/core/addresses.py:118-120 | It refuses exactly when there is no such r |
| Base58.ComputeDecode | src/crypto_processing_api/core/addresses.py:152-161 | The decoding loop |
| Base58.ComputeEncode | src/crypto_processing_api/core/addresses.py:260-267 | The encoding loop |
| Base58.DecodeUndoesEncode | src/crypto_processing_api/core/addresses.py:260-267 | Decoding undoes encoding on every byte string, leading zeros included |
| Base58.EncodeUndoesDecode | src/crypto_processing_api/core/addresses.py:152-161 | Encoding undoes decoding on every string over the alphabet |
| Base58.TronHexRoundTrip | src/crypto_processing_api/core/addresses.py:236-257 | The 32-byte form of every valid TRON address reads back as the address |
| Bolt11.AsInt | src/crypto_processing_api/core/addresses.py:401-405 | The group-reading loop |
| Bolt11.TaggedFields | src/crypto_processing_api/core/addresses.py:408-426 | The field scan, first occurrence first |
| Bolt11.FieldsUndoWriting | src/crypto_processing_api/core/addresses.py:408-426 | The scan gives back every field list: unknown tags carried along, the first occurrence of a tag wins |
| Bolt11.AmountReads | src/crypto_processing_api/core/addresses.py:385-398 | Every exact amount in any unit reads as its value in millisatoshi |
| Bolt11.EveryAmountCanBeWritten | src/crypto_processing_api/core/addresses.py:385-398 | Every number of millisatoshi has a text that reads as it |
| Bolt11.DecodeUndoesEncode | src/crypto_processing_api/core/addresses.py:429-480 | Decoding undoes encoding for any network prefix, exact amount, timestamp, payment hash, expiry and field list |

## Left out

- HTTP clients, retries and timeouts: BTCPay, TronGrid and the Lightning node are nondeterministic inputs of the steps.
- SQLAlchemy, PostgreSQL and migrations as such: kept only as atomic commit, row-lock serialization, unique keys, CHECKs and append-only postings. Lock order and deadlock are not modelled.
- `workers/reconciliation.py` is not part of this model; what it triggers are the same payout, invoice and release steps.
- SHA-256 and HMAC, signing, API keys, redaction, logging, alerts, outbound events, health endpoints, serializers, pagination and the demo: a digest is a parameter, a serializer is a function argument.
- Fee-rate sources and floats: the miner fee is any natural number. The pooled tolerance test is over real numbers.
- Ids: withdrawals, deposits, entries, accounts and payouts are row numbers, and a manual reference is a token assumed to be fresh. `source_ref` strings are structured values, so two references that would only collide as text do not collide here.
- Text and time columns that no decision reads: failure reason, approver, memo, submitted and updated timestamps, addresses, expiry and reservation windows of a deposit. The age guard of the crash sweep is therefore covered by A1.
- `BIGINT` width binds only the gross of a withdrawal; balances and posted amounts are unbounded integers.
- Adjustments and the command line's corrections: no step posts an adjustment entry, so the external and deficit accounts stay at zero in the runs.
- Bounds on the number of rows a sweep selects, and the order in which it selects them: a sweep takes any list of candidates.
- validate_destination and the Lightning submission guard: a refusal before the hold or before the rail call is an input of the handler and of the worker's turn.
- Non-ASCII digits and whitespace, underscores in numbers, exponent limits of `Decimal`, and signs or a `0x` prefix in TRON log data.
- Empty strings that the code treats as absent (a report's transaction id, a payout reference) are absent values here.
- `bytes.fromhex` and `str.strip` know ASCII whitespace only.
- Endpoints.DepositApi.CloseDeposit: takes what the backend answered about the invoice as its input, so finding an existing invoice by its metadata is not modelled.
- ManualBacked.ManualSendsAreBacked: holds on a fixed chain; a reorganisation that removes a transaction is not modelled.
- Velocity.VelocityCapExact: caps are fixed for the whole run, and times are whole ticks.
- ExactlyOnce.AtMostOneResourcePerKey: a transaction that touches a key is one step, at the instant `Idempotency.BeginIsAtomic` gives its claim; the lock on the key's row orders what follows.
- Endpoints.WithdrawalApi.CreateWithdrawal: claims with nothing committing in between, for the same reason; so does Endpoints.DepositApi.OpenDeposit.
- DepositSession.Session.AttachInvoice: writes the invoice and the status; address, reservation window, checkout link and expiry are not modelled.
- Webhooks.Processor.ProcessPending: handling an event is reduced to how it ends, and which events other workers hold is fixed for the pass.
