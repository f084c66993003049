/** The withdrawal service over mutable rows: each method locks one row, updates it and the
    ledger in place, and commits or rolls back as a whole. */
module WithdrawalSession {
  import opened Texts
  import opened Wrappers
  import opened Sums
  import opened Ledger
  import opened Fees
  import W = Withdrawals
  import opened Withdrawals
  import Tron

  /** A commit leaves the new books and the new row; a raise leaves everything as it was. */
  ghost predicate Ran(spec: Outcome, b: Book, ws: seq<Withdrawal>, i: nat, r: Result<(), Error>, b': Book, ws': seq<Withdrawal>)
    requires i < |ws|
  {
    match spec
    case Success((book, w)) => r == Success(()) && b' == book && ws' == ws[i := w]
    case Failure(err) => r == Failure(err) && b' == b && ws' == ws
  }

  class Session {
    const ledger: LedgerStore
    var rows: seq<Withdrawal>

    constructor (ledger: LedgerStore)
      ensures this.ledger == ledger && rows == []
    {
      this.ledger := ledger;
      rows := [];
    }

    function Books(): Book
      reads ledger
    {
      ledger.View()
    }

    method RollBack(b: Book, ws: seq<Withdrawal>)
      modifies this, ledger
      ensures Books() == b && rows == ws
    {
      ledger.Restore(b);
      rows := ws;
    }

    // -- reads ---------------------------------------------------------------------------

    method GetSystemAccount(asset: string, kind: AccountKind) returns (r: Result<nat, Error>)
      ensures r == SystemAccount(Books(), asset, kind)
    {
      var id := ledger.LookUpAccount(SystemKey(asset, kind));
      return if id.Some? then Success(id.value) else Failure(LedgerFault(AccountNotFound));
    }

    method GetUserAccounts(asset: string, user: string) returns (available: nat, hold: nat)
      modifies ledger
      ensures (Books(), available, hold) == UserAccounts(old(Books()), asset, user)
    {
      var first := ledger.GetOrCreateAccount(AvailableKey(asset, user));
      var second := ledger.GetOrCreateAccount(HoldKey(asset, user));
      return first.value, second.value;
    }

    /** Reads the committed amount back off the submit entry. */
    method CommittedFromEntry(entry: Option<nat>) returns (amount: int)
      ensures amount == PostedTo(Books(), entry, PayoutsInFlight)
    {
      amount := 0;
      if entry.None? || entry.value >= |ledger.entries| {
        return;
      }
      var postings := ledger.entries[entry.value].postings;
      ghost var hits := Hits(ledger.accounts, KindIs(PayoutsInFlight));
      for k := 0 to |postings|
        invariant amount == Sum(postings[..k], hits)
      {
        var p := postings[k];
        assert postings[..k + 1] == postings[..k] + [p];
        SumAppend(postings[..k], p, hits);
        if ValidId(ledger.accounts, p.account) {
          assert KindIs(PayoutsInFlight)(ledger.accounts[p.account].key) <==> ledger.accounts[p.account].key.kind == PayoutsInFlight;
          if ledger.accounts[p.account].key.kind == PayoutsInFlight {
            amount := amount + p.amount;
          }
        }
      }
      assert postings[..|postings|] == postings;
    }

    method SumWindow(asset: string, user: Option<string>, now: int) returns (total: int)
      ensures total == VelocitySum(rows, asset, user, now)
    {
      total := 0;
      var since := now - VELOCITY_WINDOW;
      for k := 0 to |rows|
        invariant total == Sum(rows[..k], InWindow(asset, user, since))
      {
        var w := rows[k];
        assert rows[..k + 1] == rows[..k] + [w];
        SumAppend(rows[..k], w, InWindow(asset, user, since));
        if w.asset == asset && w.createdAt >= since && CountsTowardCap(w.status) && (user.None? || user.value == w.user) {
          total := total + w.gross;
        }
      }
      assert rows[..|rows|] == rows;
    }

    method TxidIsFree(i: nat, txid: Option<string>) returns (free: bool)
      ensures free == TxidFree(rows, i, txid)
    {
      if txid.None? {
        return true;
      }
      for j := 0 to |rows|
        invariant forall k :: 0 <= k < j && k != i ==> rows[k].txid != txid
      {
        if j != i && rows[j].txid == txid {
          return false;
        }
      }
      return true;
    }

    // -- entries ---------------------------------------------------------------------------

    method PostSubmit(i: nat, quote: FeeQuote) returns (r: Result<(), Error>)
      requires i < |rows|
      modifies this, ledger
      ensures Ran(PostSubmitEntry(old(Books()), i, old(rows[i]), quote), old(Books()), old(rows), i, r, Books(), rows)
    {
      var hot := GetSystemAccount(rows[i].asset, HotWallet);
      if hot.Failure? {
        return Failure(hot.error);
      }
      var inFlight := GetSystemAccount(rows[i].asset, PayoutsInFlight);
      if inFlight.Failure? {
        return Failure(inFlight.error);
      }
      var entry := ledger.PostEntry(WithdrawalSubmit, rows[i].asset, WithdrawalRef("withdrawal_submit", i),
                                    [Posting(inFlight.value, quote.Committed()), Posting(hot.value, -quote.Committed())], None);
      if entry.Failure? {
        return Failure(LedgerFault(entry.error));
      }
      rows := rows[i := rows[i].(submit := Some(entry.value))];
      return Success(());
    }

    method PostSettle(i: nat, actual: Option<int>) returns (r: Result<(), Error>)
      requires i < |rows|
      modifies this, ledger
      ensures Ran(PostSettleEntry(old(Books()), i, old(rows[i]), actual), old(Books()), old(rows), i, r, Books(), rows)
    {
      hide Post, UserAccounts, SettlePostings, PostedTo, SystemAccount, PostFor;
      var w := rows[i];
      if w.submit.None? {
        return Failure(NoSubmitEntry);
      }
      if actual.Some? && actual.value < 0 {
        return Failure(NegativeFee);
      }
      var before := ledger.View();
      var fee := if w.fee.Some? then w.fee.value else 0;
      var net := if w.net.Some? then w.net.value else w.gross - fee;
      var committed := CommittedFromEntry(w.submit);
      var estimated := committed - net;
      var walletFee := if actual.None? then estimated else actual.value;
      var drift := walletFee - estimated;
      var available, hold := GetUserAccounts(w.asset, w.user);
      r := SettleInto(i, w, committed, walletFee, hold);
      if r.Failure? {
        RollBack(before, rows);
      }
    }

    /** The postings of the settle entry, appended one by one, and the entry itself. */
    method SettleInto(i: nat, w: Withdrawal, committed: int, walletFee: int, hold: nat) returns (r: Result<(), Error>)
      requires i < |rows| && rows[i] == w
      modifies this, ledger
      ensures rows == old(rows) || r.Success?
      ensures
        var b := old(Books());
        var inFlight := SystemAccount(b, w.asset, PayoutsInFlight);
        var expense := SystemAccount(b, w.asset, NetworkFeeExpense);
        var income := SystemAccount(b, w.asset, FeeIncome);
        var hot := if walletFee != committed - SettleNet(w) then SystemAccount(b, w.asset, HotWallet) else Success(0);
        if inFlight.Failure? then r == Failure(inFlight.error)
        else if expense.Failure? then r == Failure(expense.error)
        else if income.Failure? then r == Failure(income.error)
        else if hot.Failure? then r == Failure(hot.error)
        else
          match PostFor(b, Entry(WithdrawalSettle, w.asset, WithdrawalRef("withdrawal_settle", i),
                                 SettlePostings(w, committed, walletFee, hold, inFlight.value, expense.value, income.value, hot.value), None))
          case Success(b') => r == Success(()) && Books() == b' && rows == old(rows)[i := w.(settle := Some(|b.entries|))]
          case Failure(err) => r == Failure(err)
    {
      hide Post;
      var fee, net := SettleFee(w), SettleNet(w);
      var drift := walletFee - (committed - net);
      var inFlight := GetSystemAccount(w.asset, PayoutsInFlight);
      if inFlight.Failure? {
        return Failure(inFlight.error);
      }
      var expense := GetSystemAccount(w.asset, NetworkFeeExpense);
      if expense.Failure? {
        return Failure(expense.error);
      }
      var income := GetSystemAccount(w.asset, FeeIncome);
      if income.Failure? {
        return Failure(income.error);
      }
      var postings := [Posting(hold, w.gross), Posting(inFlight.value, -committed)];
      if walletFee != 0 {
        postings := postings + [Posting(expense.value, walletFee)];
      }
      if fee != 0 {
        postings := postings + [Posting(income.value, -fee)];
      }
      var hotId := 0;
      if drift != 0 {
        var hot := GetSystemAccount(w.asset, HotWallet);
        if hot.Failure? {
          return Failure(hot.error);
        }
        hotId := hot.value;
        postings := postings + [Posting(hotId, -drift)];
      }
      assert postings == SettlePostings(w, committed, walletFee, hold, inFlight.value, expense.value, income.value, hotId);
      var entry := ledger.PostEntry(WithdrawalSettle, w.asset, WithdrawalRef("withdrawal_settle", i), postings, None);
      if entry.Failure? {
        return Failure(LedgerFault(entry.error));
      }
      rows := rows[i := w.(settle := Some(entry.value))];
      return Success(());
    }

    method PostUnsubmit(i: nat) returns (r: Result<(), Error>)
      requires i < |rows|
      modifies ledger
      ensures match PostUnsubmitEntry(old(Books()), i, rows[i])
        case Success(b) => r == Success(()) && Books() == b
        case Failure(err) => r == Failure(err) && Books() == old(Books())
    {
      hide Post, PostedTo;
      var w := rows[i];
      if w.submit.None? {
        return Success(());
      }
      var hot := GetSystemAccount(w.asset, HotWallet);
      if hot.Failure? {
        return Failure(hot.error);
      }
      var inFlight := GetSystemAccount(w.asset, PayoutsInFlight);
      if inFlight.Failure? {
        return Failure(inFlight.error);
      }
      var committed := CommittedFromEntry(w.submit);
      var entry := ledger.PostEntry(Reversal, w.asset, WithdrawalRef("withdrawal_submit_reversal", i),
                                    [Posting(hot.value, committed), Posting(inFlight.value, -committed)], w.submit);
      return if entry.Failure? then Failure(LedgerFault(entry.error)) else Success(());
    }

    method PostRelease(i: nat) returns (r: Result<(), Error>)
      requires i < |rows|
      modifies this, ledger
      ensures Ran(PostReleaseEntry(old(Books()), i, old(rows[i])), old(Books()), old(rows), i, r, Books(), rows)
    {
      hide Post, UserAccounts;
      var w, before := rows[i], ledger.View();
      var available, hold := GetUserAccounts(w.asset, w.user);
      var entry := ledger.PostEntry(WithdrawalRelease, w.asset, WithdrawalRef("withdrawal_release", i),
                                    [Posting(hold, w.gross), Posting(available, -w.gross)], None);
      if entry.Failure? {
        RollBack(before, rows);
        return Failure(LedgerFault(entry.error));
      }
      rows := rows[i := w.(release := Some(entry.value))];
      return Success(());
    }

    /** `_transition`: refuses an illegal step, ignores a step to the same status. */
    method TransitionRow(i: nat, target: Status) returns (r: Result<(), Error>)
      requires i < |rows|
      modifies this
      ensures match Transition(old(rows[i]), target)
        case Success(w) => r == Success(()) && rows == old(rows)[i := w]
        case Failure(err) => r == Failure(err) && rows == old(rows)
    {
      if target == rows[i].status {
        assert rows[i := rows[i]] == rows;
        return Success(());
      }
      if target !in Allowed(rows[i].status) {
        return Failure(IllegalTransition);
      }
      rows := rows[i := rows[i].(status := target)];
      return Success(());
    }

    // -- operations ------------------------------------------------------------------------

    method PlaceHold(assets: map<string, AssetRow>, req: Request, now: int, createdAt: int) returns (r: Result<nat, Error>)
      modifies this, ledger
      ensures match W.PlaceHold(old(Books()), old(rows), assets, req, now, createdAt)
        case Success((b, w)) => r == Success(|old(rows)|) && Books() == b && rows == old(rows) + [w]
        case Failure(err) => r == Failure(err) && Books() == old(Books()) && rows == old(rows)
    {
      hide Post, UserAccounts, SystemAccount, NeedsManual;
      var before := ledger.View();
      if req.asset !in assets {
        return Failure(UnknownAsset);
      }
      var asset := assets[req.asset];
      if !asset.enabled {
        return Failure(AssetUnavailable);
      }
      var gate := GetSystemAccount(req.asset, HotWallet);
      if gate.Failure? {
        return Failure(gate.error);
      }
      var available, hold := GetUserAccounts(req.asset, req.user);
      r := HoldOn(asset, req, now, createdAt, available, hold);
      if r.Failure? {
        RollBack(before, rows);
      }
    }

    /** The checks and the insert, once the gate and the user's accounts are locked. */
    method HoldOn(asset: AssetRow, req: Request, now: int, createdAt: int, available: nat, hold: nat) returns (r: Result<nat, Error>)
      modifies this, ledger
      ensures
        var b := old(Books());
        var manual := NeedsManual(old(rows), asset, req.asset, req.user, req.gross, req.forceManual, now);
        var w := Withdrawal(req.user, req.asset, req.destination, req.gross, None, None,
                            if manual then PendingApproval else Approved, !manual, req.backend,
                            None, None, None, None, None, None, None, None, createdAt);
        if req.gross < asset.minimum then r == Failure(AmountTooSmall) && rows == old(rows)
        else if -BalanceOf(b, available) < req.gross then r == Failure(InsufficientBalance) && rows == old(rows)
        else if !(0 < req.gross <= MAX_BIGINT) then r == Failure(GrossOutOfRange) && rows == old(rows)
        else match PostFor(b, HoldEntry(|old(rows)|, w, available, hold))
          case Success(b') => r == Success(|old(rows)|) && Books() == b' && rows == old(rows) + [w.(hold := Some(|b.entries|))]
          case Failure(err) => r == Failure(err) && rows == old(rows)
    {
      hide Post;
      var balance := if available < |ledger.accounts| then ledger.accounts[available].balance else 0;
      if req.gross < asset.minimum {
        return Failure(AmountTooSmall);
      }
      if -balance < req.gross {
        return Failure(InsufficientBalance);
      }
      var manual := req.forceManual;
      if req.gross > asset.autoLimit {
        manual := true;
      }
      var assetWindow := SumWindow(req.asset, None, now);
      if assetWindow + req.gross > asset.dailyCap {
        manual := true;
      }
      if asset.userDailyCap.Some? {
        var userWindow := SumWindow(req.asset, Some(req.user), now);
        if userWindow + req.gross > asset.userDailyCap.value {
          manual := true;
        }
      }
      if !(0 < req.gross <= MAX_BIGINT) {
        return Failure(GrossOutOfRange);
      }
      var i := |rows|;
      var w := Withdrawal(req.user, req.asset, req.destination, req.gross, None, None,
                          if manual then PendingApproval else Approved, !manual, req.backend,
                          None, None, None, None, None, None, None, None, createdAt);
      rows := rows + [w];
      var e := HoldEntry(i, w, available, hold);
      var entry := ledger.PostEntry(e.kind, e.asset, e.ref, e.postings, None);
      if entry.Failure? {
        rows := rows[..i];
        return Failure(LedgerFault(entry.error));
      }
      rows := rows[i := rows[i].(hold := Some(entry.value))];
      return Success(i);
    }

    method ReleaseHold(i: nat, actor: string, attestation: Option<string>) returns (r: Result<(), Error>)
      requires i < |rows|
      modifies this, ledger
      ensures Ran(W.ReleaseHold(old(Books()), i, old(rows[i]), actor, attestation), old(Books()), old(rows), i, r, Books(), rows)
    {
      hide Blank, W.MarkRefunded, PostUnsubmitEntry, PostReleaseEntry, Post, UserAccounts, PostedTo;
      var before, kept := ledger.View(), rows;
      var w := rows[i];
      if AttestedReleasable(w.status) {
        if attestation.None? || Blank(attestation.value) {
          return Failure(ReleaseNotPermitted);
        }
      } else if !AutoReleasable(w.status) {
        return Failure(ReleaseNotPermitted);
      }
      if w.release.Some? {
        assert rows[i := w] == rows;
        return Success(());
      }
      r := PostUnsubmit(i);
      if r.Failure? {
        return;
      }
      r := PostRelease(i);
      if r.Failure? {
        RollBack(before, kept);
        return;
      }
      ReleasedIsLegal(PostUnsubmitEntry(before, i, w).value, i, w);
      MarkRow(i, actor, attestation);
    }

    /** Routes a releasable row to `refunded` through the legal intermediate for where it is. */
    method MarkRow(i: nat, actor: string, attestation: Option<string>)
      requires i < |rows| && (AttestedReleasable(rows[i].status) || AutoReleasable(rows[i].status))
      modifies this
      ensures W.MarkRefunded(old(rows[i]), actor, attestation).Success?
      ensures rows == old(rows)[i := W.MarkRefunded(old(rows[i]), actor, attestation).value]
    {
      hide Strip;
      if rows[i].status in {Requested, PendingApproval, Approved} {
        var _ := TransitionRow(i, Rejected);
      } else if rows[i].status in {Submitting, Submitted, Broadcast} {
        var _ := TransitionRow(i, Failed);
      }
      var _ := TransitionRow(i, Refunded);
      var words := if attestation.Some? && attestation.value != "" then Some(Strip(attestation.value)) else rows[i].attestation;
      rows := rows[i := rows[i].(releasedBy := Some(actor), attestation := words)];
    }

    static lemma ReleasedIsLegal(b: Book, i: nat, w: Withdrawal)
      ensures PostReleaseEntry(b, i, w).Success? ==> PostReleaseEntry(b, i, w).value.1.status == w.status
    {
      hide Post, UserAccounts;
    }

    method ApplyPayoutState(i: nat, report: Report, actual: Option<int>) returns (r: Result<(), Error>)
      requires i < |rows|
      modifies this, ledger
      ensures Ran(W.ApplyPayoutState(old(Books()), old(rows), i, old(rows[i]), report, actual), old(Books()), old(rows), i, r, Books(), rows)
    {
      hide PostSettleEntry, TxidFree;
      var before, kept := ledger.View(), rows;
      if report.echo.Some? && report.echo.value != i {
        return Failure(PayoutMismatch);
      }
      if rows[i].backendRef.Some? && rows[i].backendRef.value != PayoutRef(report.payout) {
        return Failure(PayoutMismatch);
      }
      if report.txid.Some? && rows[i].txid.None? {
        rows := rows[i := rows[i].(txid := report.txid)];
      }
      // `ux_withdrawals_txid` binds when the row is written back.
      var free := TxidIsFree(i, rows[i].txid);
      FreeElsewhere(kept, rows, i, rows[i].txid);
      if !free {
        rows := kept;
        return Failure(TxidTaken);
      }
      var target := PayoutTarget(report.state);
      if target.None? {
        return Success(());
      }
      if target.value == Confirmed && rows[i].settle.None? {
        var settled := PostSettle(i, actual);
        if settled.Failure? {
          rows := kept;
          return settled;
        }
      }
      if target.value in Allowed(rows[i].status) {
        rows := rows[i := rows[i].(status := target.value)];
      }
      return Success(());
    }

    static lemma FreeElsewhere(ws: seq<Withdrawal>, ws': seq<Withdrawal>, i: nat, txid: Option<string>)
      requires |ws'| == |ws| && forall j :: 0 <= j < |ws| && j != i ==> ws'[j] == ws[j]
      ensures TxidFree(ws', i, txid) == TxidFree(ws, i, txid)
    {
    }

    method Approve(i: nat) returns (r: Result<(), Error>)
      requires i < |rows|
      modifies this
      ensures match W.Approve(old(rows[i]))
        case Success(w) => r == Success(()) && rows == old(rows)[i := w]
        case Failure(err) => r == Failure(err) && rows == old(rows)
    {
      if rows[i].status != PendingApproval {
        return Failure(IllegalTransition);
      }
      rows := rows[i := rows[i].(status := Approved)];
      return Success(());
    }

    method Reject(i: nat, actor: string) returns (r: Result<(), Error>)
      requires i < |rows|
      modifies this, ledger
      ensures Ran(W.Reject(old(Books()), i, old(rows[i]), actor), old(Books()), old(rows), i, r, Books(), rows)
    {
      hide W.ReleaseHold;
      var kept := rows;
      if rows[i].status != PendingApproval {
        return Failure(IllegalTransition);
      }
      rows := rows[i := rows[i].(status := Rejected)];
      r := ReleaseHold(i, actor, None);
      if r.Failure? {
        rows := kept;
      }
    }

    method SubmitManual(i: nat, token: nat, quote: FeeQuote) returns (r: Result<(), Error>)
      requires i < |rows|
      modifies this, ledger
      ensures Ran(W.SubmitManual(old(Books()), i, old(rows[i]), token, quote), old(Books()), old(rows), i, r, Books(), rows)
    {
      hide Post;
      var kept := rows;
      if rows[i].status != Approved {
        return Failure(IllegalTransition);
      }
      rows := rows[i := rows[i].(backendRef := Some(ManualRef(token)), fee := Some(quote.fee), net := Some(quote.net))];
      r := PostSubmit(i, quote);
      if r.Failure? {
        rows := kept;
        return;
      }
      r := TransitionRow(i, Submitting);
      r := TransitionRow(i, Submitted);
    }

    method MarkBroadcast(i: nat, chain: Tron.Chain, txid: string) returns (r: Result<(), Error>)
      requires i < |rows|
      modifies this
      ensures match W.MarkBroadcast(old(rows), i, old(rows[i]), chain, txid)
        case Success(w) => r == Success(()) && rows == old(rows)[i := w]
        case Failure(err) => r == Failure(err) && rows == old(rows)
    {
      hide Normalized, Tron.Verdict;
      var w := rows[i];
      if w.backend != ManualTron {
        return Failure(WrongBackend);
      }
      if w.status != Submitted {
        return Failure(IllegalTransition);
      }
      var candidate := Normalized(txid);
      if candidate == "" {
        return Failure(NoTransactionId);
      }
      var free := TxidIsFree(i, Some(candidate));
      if !free {
        return Failure(TxidTaken);
      }
      if w.net.None? {
        return Failure(Unverified(Tron.NoMatch));
      }
      var verification := Tron.Verify(chain, candidate, w.destination, w.net.value);
      if verification.Rejected? {
        return Failure(Unverified(verification.reason));
      }
      rows := rows[i := w.(txid := Some(candidate))];
      r := TransitionRow(i, Broadcast);
    }

    method PollManual(i: nat, chain: Tron.Chain, height: int, required: int) returns (r: Result<(), Error>)
      requires i < |rows|
      modifies this, ledger
      ensures Ran(W.PollManual(old(Books()), i, old(rows[i]), chain, height, required), old(Books()), old(rows), i, r, Books(), rows)
    {
      hide PostSettleEntry, Tron.Verdict;
      var w := rows[i];
      assert rows[i := w] == rows;
      if w.status != Broadcast || w.txid.None? || w.txid.value == "" || w.net.None? {
        return Success(());
      }
      var verification := Tron.Verify(chain, w.txid.value, w.destination, w.net.value);
      if verification.Rejected? {
        return Success(());
      }
      if Tron.Confirmations(height, verification.block) < required {
        return Success(());
      }
      if w.settle.None? {
        r := PostSettle(i, None);
        if r.Failure? {
          return;
        }
        SettledKeepsStatus(old(Books()), i, w);
      }
      r := TransitionRow(i, Confirmed);
    }

    static lemma SettledKeepsStatus(b: Book, i: nat, w: Withdrawal)
      ensures PostSettleEntry(b, i, w, None).Success? ==> PostSettleEntry(b, i, w, None).value.1.status == w.status
    {
      hide Post, UserAccounts, SettlePostings, PostedTo;
    }

    /** Compare-and-swap `approved -> submitting`: True for the one worker that wins. */
    method ClaimForSubmission(i: nat) returns (won: bool)
      requires i < |rows|
      modifies this
      ensures match Claim(old(rows[i]))
        case Some(w) => won && rows == old(rows)[i := w]
        case None => !won && rows == old(rows)
    {
      if rows[i].status == Approved && rows[i].backend != ManualTron {
        rows := rows[i := rows[i].(status := Submitting)];
        return true;
      }
      return false;
    }

    /** The reference, the amounts, the ledger entry and the status, in that order. */
    method Record(i: nat, ref: Reference, quote: FeeQuote) returns (r: Result<(), Error>)
      requires i < |rows|
      modifies this, ledger
      ensures Ran(RecordSubmission(old(Books()), i, old(rows[i]), ref, quote), old(Books()), old(rows), i, r, Books(), rows)
    {
      hide Post;
      var kept := rows;
      rows := rows[i := rows[i].(backendRef := Some(ref), fee := Some(quote.fee), net := Some(quote.net))];
      r := PostSubmit(i, quote);
      if r.Failure? {
        rows := kept;
        return;
      }
      rows := rows[i := rows[i].(status := Submitted)];
    }
  }
}
