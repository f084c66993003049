/** The withdrawal row and what each operation commits to it and to the ledger.

    Every function here is the effect of one operation on one row, given the books it runs
    against: the new books and row, or the error that leaves both untouched. */
module Withdrawals {
  import opened Texts
  import opened Wrappers
  import opened Sums
  import opened Ledger
  import opened Fees
  import Tron

  datatype Status =
    | Requested | PendingApproval | Approved | Rejected | Submitting
    | Submitted | Broadcast | Confirmed | Failed | Refunded

  datatype Backend = BtcPay | BtcPayLightning | ManualTron

  datatype Reference = PayoutRef(payout: nat) | ManualRef(token: nat)

  datatype Withdrawal = Withdrawal(
    user: string, asset: string, destination: string, gross: int,
    fee: Option<int>, net: Option<int>,
    status: Status, auto: bool, backend: Backend, backendRef: Option<Reference>, txid: Option<string>,
    hold: Option<nat>, submit: Option<nat>, settle: Option<nat>, release: Option<nat>,
    releasedBy: Option<string>, attestation: Option<string>, createdAt: int)

  /** The limits of one `assets` row. */
  datatype AssetRow = AssetRow(autoLimit: int, dailyCap: int, userDailyCap: Option<int>, minimum: int,
                               decimals: nat, enabled: bool)

  datatype Error =
    | LedgerFault(error: LedgerError) | UnknownAsset | AssetUnavailable | UnknownWithdrawal
    | AmountTooSmall | InsufficientBalance | IllegalTransition | ReleaseNotPermitted
    | NoSubmitEntry | NegativeFee | PayoutMismatch | TxidTaken | WrongBackend
    | Unverified(reason: Tron.Reason) | NoTransactionId | Dust | AmountUnreadable | GrossOutOfRange

  type Outcome = Result<(Book, Withdrawal), Error>

  datatype PayoutState = AwaitingApproval | Pending | InFlight | Completed | Cancelled | Unknown

  /** A payout as the backend reports it: any report may be stale. */
  datatype Report = Report(payout: nat, state: PayoutState, echo: Option<nat>, txid: Option<string>)

  const VELOCITY_WINDOW := 24 * 60 * 60

  const MAX_BIGINT := 0x7FFF_FFFF_FFFF_FFFF

  const ACTOR_NEVER_SUBMITTED := "auto:never_submitted"

  // -- status tables ---------------------------------------------------------------

  function Allowed(from: Status): set<Status> {
    match from
    case Requested => {PendingApproval, Approved, Rejected}
    case PendingApproval => {Approved, Rejected}
    case Approved => {Submitting, Rejected}
    case Submitting => {Submitted, Approved, Failed}
    case Submitted => {Broadcast, Confirmed, Failed}
    case Broadcast => {Confirmed, Failed}
    case Confirmed => {}
    case Rejected => {Refunded}
    case Failed => {Refunded}
    case Refunded => {}
  }

  /** Releasing from here cannot double-pay: no payout has been created yet. */
  predicate AutoReleasable(s: Status) {
    s in {Requested, PendingApproval, Approved, Rejected}
  }

  /** A transaction may exist: only an attestation releases. */
  predicate AttestedReleasable(s: Status) {
    s in {Submitting, Submitted, Broadcast, Failed}
  }

  predicate CountsTowardCap(s: Status) {
    s in {Requested, PendingApproval, Approved, Submitting, Submitted, Broadcast, Confirmed}
  }

  function PayoutTarget(s: PayoutState): Option<Status> {
    match s
    case AwaitingApproval | Pending => Some(Submitted)
    case InFlight => Some(Broadcast)
    case Completed => Some(Confirmed)
    case Cancelled => Some(Failed)
    case Unknown => None
  }

  function Transition(w: Withdrawal, target: Status): Result<Withdrawal, Error> {
    if target == w.status then Success(w)
    else if target !in Allowed(w.status) then Failure(IllegalTransition)
    else Success(w.(status := target))
  }

  /** Backend events arrive out of order: an illegal step is a recorded no-op. */
  function Advance(w: Withdrawal, target: Status): Withdrawal {
    if target in Allowed(w.status) then w.(status := target) else w
  }

  // -- accounts ----------------------------------------------------------------------

  function AvailableKey(asset: string, user: string): AccountKey {
    AccountKey(asset, UserAvailable, Some(user))
  }

  function HoldKey(asset: string, user: string): AccountKey {
    AccountKey(asset, UserHold, Some(user))
  }

  function SystemKey(asset: string, kind: AccountKind): AccountKey {
    AccountKey(asset, kind, None)
  }

  function SystemAccount(b: Book, asset: string, kind: AccountKind): (r: Result<nat, Error>)
    ensures r.Success? ==> r.value < |b.accounts| && b.accounts[r.value].key == SystemKey(asset, kind)
  {
    match Find(b.accounts, SystemKey(asset, kind))
    case Some(id) => Success(id)
    case None => Failure(LedgerFault(AccountNotFound))
  }

  /** `(user_available, user_hold)`, created if this user is new. */
  function UserAccounts(b: Book, asset: string, user: string): (Book, nat, nat) {
    var (b1, available) := Ensured(b, AvailableKey(asset, user));
    var (b2, hold) := Ensured(b1, HoldKey(asset, user));
    (b2, available, hold)
  }

  function PostFor(b: Book, e: Entry): Result<Book, Error> {
    match Post(b, e)
    case Success(b') => Success(b')
    case Failure(err) => Failure(LedgerFault(err))
  }

  /** What an entry posted to accounts of one kind. */
  function PostedTo(b: Book, entry: Option<nat>, kind: AccountKind): int {
    if entry.Some? && entry.value < |b.entries|
    then PostingSum(b.accounts, b.entries[entry.value].postings, KindIs(kind))
    else 0
  }

  function KindIs(kind: AccountKind): AccountKey -> bool {
    (key: AccountKey) => key.kind == kind
  }

  /** The committed amount is read back off the submit entry, never re-estimated. */
  function Committed(b: Book, w: Withdrawal): int {
    PostedTo(b, w.submit, PayoutsInFlight)
  }

  /** The network fee the settle entry booked. */
  function BookedFee(b: Book, w: Withdrawal): int {
    PostedTo(b, w.settle, NetworkFeeExpense)
  }

  // -- entries -----------------------------------------------------------------------

  function HoldEntry(id: nat, w: Withdrawal, available: nat, hold: nat): Entry {
    Entry(WithdrawalHold, w.asset, WithdrawalRef("withdrawal_hold", id),
          [Posting(available, w.gross), Posting(hold, -w.gross)], None)
  }

  function PostSubmitEntry(b: Book, id: nat, w: Withdrawal, q: FeeQuote): Outcome {
    var hot :- SystemAccount(b, w.asset, HotWallet);
    var inFlight :- SystemAccount(b, w.asset, PayoutsInFlight);
    var b' :- PostFor(b, Entry(WithdrawalSubmit, w.asset, WithdrawalRef("withdrawal_submit", id),
                               [Posting(inFlight, q.Committed()), Posting(hot, -q.Committed())], None));
    Success((b', w.(submit := Some(|b.entries|))))
  }

  function SettleFee(w: Withdrawal): int {
    if w.fee.Some? then w.fee.value else 0
  }

  function SettleNet(w: Withdrawal): int {
    if w.net.Some? then w.net.value else w.gross - SettleFee(w)
  }

  function OneIf(condition: bool, p: Posting): seq<Posting> {
    if condition then [p] else []
  }

  function SettlePostings(w: Withdrawal, committed: int, walletFee: int,
                          hold: nat, inFlight: nat, expense: nat, income: nat, hot: nat): seq<Posting> {
    var drift := walletFee - (committed - SettleNet(w));
    [Posting(hold, w.gross), Posting(inFlight, -committed)]
      + OneIf(walletFee != 0, Posting(expense, walletFee))
      + OneIf(SettleFee(w) != 0, Posting(income, -SettleFee(w)))
      + OneIf(drift != 0, Posting(hot, -drift))
  }

  /** The settle entry: what was committed unwinds exactly, what the rail charged is booked,
      and the difference lands in the hot wallet. */
  function PostSettleEntry(b: Book, id: nat, w: Withdrawal, actual: Option<int>): Outcome {
    if w.submit.None? then Failure(NoSubmitEntry)
    else if actual.Some? && actual.value < 0 then Failure(NegativeFee)
    else
      var committed := Committed(b, w);
      var estimated := committed - SettleNet(w);
      var walletFee := if actual.Some? then actual.value else estimated;
      var (b1, _, hold) := UserAccounts(b, w.asset, w.user);
      var inFlight :- SystemAccount(b1, w.asset, PayoutsInFlight);
      var expense :- SystemAccount(b1, w.asset, NetworkFeeExpense);
      var income :- SystemAccount(b1, w.asset, FeeIncome);
      // Looked up only when there is a drift to book.
      var hot :- if walletFee != estimated then SystemAccount(b1, w.asset, HotWallet) else Success(0);
      var b' :- PostFor(b1, Entry(WithdrawalSettle, w.asset, WithdrawalRef("withdrawal_settle", id),
                                  SettlePostings(w, committed, walletFee, hold, inFlight, expense, income, hot), None));
      Success((b', w.(settle := Some(|b1.entries|))))
  }

  /** Reverses the in-flight commitment; a row that never committed has nothing to reverse. */
  function PostUnsubmitEntry(b: Book, id: nat, w: Withdrawal): Result<Book, Error> {
    if w.submit.None? then Success(b)
    else
      var hot :- SystemAccount(b, w.asset, HotWallet);
      var inFlight :- SystemAccount(b, w.asset, PayoutsInFlight);
      PostFor(b, Entry(Reversal, w.asset, WithdrawalRef("withdrawal_submit_reversal", id),
                       [Posting(hot, Committed(b, w)), Posting(inFlight, -Committed(b, w))], w.submit))
  }

  function PostReleaseEntry(b: Book, id: nat, w: Withdrawal): Outcome {
    var (b1, available, hold) := UserAccounts(b, w.asset, w.user);
    var b' :- PostFor(b1, Entry(WithdrawalRelease, w.asset, WithdrawalRef("withdrawal_release", id),
                                [Posting(hold, w.gross), Posting(available, -w.gross)], None));
    Success((b', w.(release := Some(|b1.entries|))))
  }

  // -- operations ----------------------------------------------------------------------

  function InWindow(asset: string, user: Option<string>, since: int): Withdrawal -> int {
    (w: Withdrawal) =>
      if w.asset == asset && w.createdAt >= since && CountsTowardCap(w.status) && (user.None? || user.value == w.user)
      then w.gross else 0
  }

  /** Gross withdrawn in the rolling window, summed from the table. */
  function VelocitySum(ws: seq<Withdrawal>, asset: string, user: Option<string>, now: int): int {
    Sum(ws, InWindow(asset, user, now - VELOCITY_WINDOW))
  }

  predicate NeedsManual(ws: seq<Withdrawal>, row: AssetRow, asset: string, user: string, gross: int,
                        forceManual: bool, now: int) {
    || forceManual
    || gross > row.autoLimit
    || VelocitySum(ws, asset, None, now) + gross > row.dailyCap
    || (row.userDailyCap.Some? && VelocitySum(ws, asset, Some(user), now) + gross > row.userDailyCap.value)
  }

  datatype Request = Request(user: string, asset: string, gross: int, destination: string,
                             backend: Backend, forceManual: bool)

  /** Reserves the funds and decides the approval route. The row takes the next id. */
  function PlaceHold(b: Book, ws: seq<Withdrawal>, assets: map<string, AssetRow>, req: Request,
                     now: int, createdAt: int): Outcome {
    if req.asset !in assets then Failure(UnknownAsset)
    else if !assets[req.asset].enabled then Failure(AssetUnavailable)
    else
      var row := assets[req.asset];
      var _ :- SystemAccount(b, req.asset, HotWallet);
      var (b1, available, hold) := UserAccounts(b, req.asset, req.user);
      if req.gross < row.minimum then Failure(AmountTooSmall)
      else if -BalanceOf(b1, available) < req.gross then Failure(InsufficientBalance)
      else
        var manual := NeedsManual(ws, row, req.asset, req.user, req.gross, req.forceManual, now);
        var w := Withdrawal(req.user, req.asset, req.destination, req.gross, None, None,
                            if manual then PendingApproval else Approved, !manual, req.backend,
                            None, None, None, None, None, None, None, None, createdAt);
        // The row's own CHECK and the width of its column bind when it is inserted.
        var _ :- if !(0 < req.gross <= MAX_BIGINT) then Failure(GrossOutOfRange) else Success(());
        var b' :- PostFor(b1, HoldEntry(|ws|, w, available, hold));
        Success((b', w.(hold := Some(|b1.entries|))))
  }

  function BalanceOf(b: Book, id: nat): int {
    if id < |b.accounts| then b.accounts[id].balance else 0
  }

  /** Routes the row to `refunded` through the legal intermediate for where it is. */
  function MarkRefunded(w: Withdrawal, actor: string, attestation: Option<string>): Result<Withdrawal, Error> {
    var w1 :- if w.status in {Requested, PendingApproval, Approved} then Transition(w, Rejected)
              else if w.status in {Submitting, Submitted, Broadcast} then Transition(w, Failed)
              else Success(w);
    var w2 :- Transition(w1, Refunded);
    var words := if attestation.Some? && attestation.value != "" then Some(Strip(attestation.value)) else w2.attestation;
    Success(w2.(releasedBy := Some(actor), attestation := words))
  }

  /** From every releasable status the route exists. */
  lemma ReleasableIsRefundable(w: Withdrawal, actor: string, attestation: Option<string>)
    requires AutoReleasable(w.status) || AttestedReleasable(w.status)
    ensures var r := MarkRefunded(w, actor, attestation);
      r.Success? && r.value == w.(status := Refunded, releasedBy := Some(actor), attestation := r.value.attestation)
  {
    hide Strip;
  }

  /** Returns the held funds and marks the withdrawal refunded, through the legal intermediate. */
  function ReleaseHold(b: Book, id: nat, w: Withdrawal, actor: string, attestation: Option<string>): Outcome {
    if AttestedReleasable(w.status) && (attestation.None? || Blank(attestation.value)) then Failure(ReleaseNotPermitted)
    else if !AttestedReleasable(w.status) && !AutoReleasable(w.status) then Failure(ReleaseNotPermitted)
    else if w.release.Some? then Success((b, w))
    else
      var b1 :- PostUnsubmitEntry(b, id, w);
      var (b2, w1) :- PostReleaseEntry(b1, id, w);
      var w2 :- MarkRefunded(w1, actor, attestation);
      Success((b2, w2))
  }

  /** `ux_withdrawals_txid`: one transaction settles at most one withdrawal. */
  predicate TxidFree(ws: seq<Withdrawal>, id: nat, txid: Option<string>) {
    txid.None? || forall j :: 0 <= j < |ws| && j != id ==> ws[j].txid != txid
  }

  /** Brings a withdrawal in line with a reported payout. */
  function ApplyPayoutState(b: Book, ws: seq<Withdrawal>, id: nat, w: Withdrawal, report: Report,
                            actual: Option<int>): Outcome {
    if report.echo.Some? && report.echo.value != id then Failure(PayoutMismatch)
    else if w.backendRef.Some? && w.backendRef.value != PayoutRef(report.payout) then Failure(PayoutMismatch)
    else
      var w1 := if report.txid.Some? && w.txid.None? then w.(txid := report.txid) else w;
      if !TxidFree(ws, id, w1.txid) then Failure(TxidTaken)
      else match PayoutTarget(report.state)
        case None => Success((b, w1))
        case Some(target) => MoveTo(b, id, w1, target, actual)
  }

  /** Settles a completed payout that has not been settled yet, then advances if that is legal. */
  function MoveTo(b: Book, id: nat, w: Withdrawal, target: Status, actual: Option<int>): Outcome {
    var (b', w') :- if target == Confirmed && w.settle.None? then PostSettleEntry(b, id, w, actual) else Success((b, w));
    Success((b', Advance(w', target)))
  }

  /** Compare-and-swap out of the approval queue. */
  function Approve(w: Withdrawal): Result<Withdrawal, Error> {
    if w.status != PendingApproval then Failure(IllegalTransition) else Success(w.(status := Approved))
  }

  function Reject(b: Book, id: nat, w: Withdrawal, actor: string): Outcome {
    if w.status != PendingApproval then Failure(IllegalTransition)
    else ReleaseHold(b, id, w.(status := Rejected), actor, None)
  }

  /** Compare-and-swap `approved -> submitting`, for the rows the payout worker owns. */
  function Claim(w: Withdrawal): Option<Withdrawal> {
    if w.status == Approved && w.backend != ManualTron then Some(w.(status := Submitting)) else None
  }

  /** The reference, the amounts, the status and the ledger entry, in one transaction. The
      status is overwritten without being checked again. */
  function RecordSubmission(b: Book, id: nat, w: Withdrawal, ref: Reference, q: FeeQuote): Outcome {
    var (b', w') :- PostSubmitEntry(b, id, w.(backendRef := Some(ref), fee := Some(q.fee), net := Some(q.net)), q);
    Success((b', w'.(status := Submitted)))
  }

  function SubmitManual(b: Book, id: nat, w: Withdrawal, token: nat, q: FeeQuote): Outcome {
    if w.status != Approved then Failure(IllegalTransition)
    else
      var (b', w1) :- PostSubmitEntry(b, id, w.(backendRef := Some(ManualRef(token)), fee := Some(q.fee), net := Some(q.net)), q);
      var w2 :- Transition(w1, Submitting);
      var w3 :- Transition(w2, Submitted);
      Success((b', w3))
  }

  /** `txid.strip().lower().removeprefix("0x")` */
  function Normalized(txid: string): string {
    var lowered := Lower(Strip(txid));
    if "0x" <= lowered then lowered[2..] else lowered
  }

  /** Records the operator's transaction id, after checking it against the chain. */
  function MarkBroadcast(ws: seq<Withdrawal>, id: nat, w: Withdrawal, chain: Tron.Chain, txid: string): Result<Withdrawal, Error> {
    var candidate := Normalized(txid);
    if w.backend != ManualTron then Failure(WrongBackend)
    else if w.status != Submitted then Failure(IllegalTransition)
    else if candidate == "" then Failure(NoTransactionId)
    else if !TxidFree(ws, id, Some(candidate)) then Failure(TxidTaken)
    else if w.net.None? then Failure(Unverified(Tron.NoMatch))
    else match Tron.Verdict(chain, candidate, w.destination, w.net.value)
      case Rejected(reason) => Failure(Unverified(reason))
      case Verified(_, _) => Transition(w.(txid := Some(candidate)), Broadcast)
  }

  /** Confirms a manual withdrawal once its transaction verifies again and is deep enough. */
  function PollManual(b: Book, id: nat, w: Withdrawal, chain: Tron.Chain, height: int, required: int): Outcome {
    if w.status != Broadcast || w.txid.None? || w.txid.value == "" || w.net.None? then Success((b, w))
    else match Tron.Verdict(chain, w.txid.value, w.destination, w.net.value)
      case Rejected(_) => Success((b, w))
      case Verified(block, _) =>
        if Tron.Confirmations(height, block) < required then Success((b, w))
        else
          var (b', w1) :- if w.settle.None? then PostSettleEntry(b, id, w, None) else Success((b, w));
          var w2 :- Transition(w1, Confirmed);
          Success((b', w2))
  }
}
