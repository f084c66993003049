/** Who may still send: the agreement between rows, workers and payouts, and that every
    admissible step keeps both it and the books. */
module MoneyFlow {
  import opened Wrappers
  import opened Ledger
  import opened Fees
  import opened Withdrawals
  import opened WithdrawalBooks
  import opened MoneyPath
  import opened MoneyInvariants
  import Tron

  /** A row some worker is between claiming and recording. */
  predicate LiveRow(w: Withdrawal) {
    && w.status in {Submitting, Submitted, Broadcast} && w.backend != ManualTron
    && w.submit.None? && w.settle.None? && w.release.None? && w.backendRef.None?
  }

  predicate Unsent(s: Status) {
    s == PendingApproval || s == Approved
  }

  ghost predicate WorkersOk(s: Sys) {
    && (forall k :: 0 <= k < |s.workers| && IsLive(s.workers[k]) ==>
          s.workers[k].row < |s.ws| && LiveRow(s.ws[s.workers[k].row]))
    && (forall k, l :: 0 <= k < l < |s.workers| && IsLive(s.workers[k]) && IsLive(s.workers[l]) ==>
          s.workers[k].row != s.workers[l].row)
    && (forall k :: 0 <= k < |s.workers| && s.workers[k].phase.Claimed? ==> Unpaid(s, s.workers[k].row))
    && (forall k :: 0 <= k < |s.workers| && s.workers[k].phase.Answered? ==> AnswerOk(s, s.workers[k]))
  }

  ghost predicate AnswerOk(s: Sys, wk: Worker)
    requires wk.phase.Answered?
  {
    && wk.row < |s.ws| && wk.phase.payout < |s.payouts| && s.payouts[wk.phase.payout].echo == Some(wk.row)
    && Sound(wk.phase.quote, s.ws[wk.row].gross)
  }

  /** A payout that echoes a withdrawal is for an existing row and carries an amount it was sent with. */
  ghost predicate PayoutOk(cfg: Config, s: Sys, p: Payout) {
    p.echo.Some? ==>
      && p.echo.value < |s.ws|
      && exists n :: 0 <= n <= s.ws[p.echo.value].gross && SentAs(p, n, Decimals(cfg, s.ws[p.echo.value].asset))
  }

  predicate SentAs(p: Payout, n: nat, decimals: nat) {
    p.amount == AmountText(n, decimals)
  }

  /** Two payouts that would both pay one withdrawal. */
  predicate Rivals(p: Payout, q: Payout) {
    p.echo.Some? && p.echo == q.echo && !p.cancelled && !q.cancelled
  }

  /** No payout that could still complete carries this withdrawal's id. */
  predicate Unpaid(s: Sys, i: nat) {
    forall p :: 0 <= p < |s.payouts| ==> !LiveFor(s.payouts[p], i)
  }

  ghost predicate PayoutsOk(cfg: Config, s: Sys) {
    && (forall p :: 0 <= p < |s.payouts| ==> PayoutOk(cfg, s, s.payouts[p]))
    && (forall i :: 0 <= i < |s.ws| && Unsent(s.ws[i].status) ==> Unpaid(s, i))
    && (forall p, q :: 0 <= p < q < |s.payouts| ==> !Rivals(s.payouts[p], s.payouts[q]))
  }

  ghost predicate FlowInv(cfg: Config, s: Sys) {
    WorkersOk(s) && PayoutsOk(cfg, s)
  }

  // -- rows ------------------------------------------------------------------------------

  lemma FlowRow(cfg: Config, s: Sys, i: nat, b': Book, w': Withdrawal)
    requires FlowInv(cfg, s) && i < |s.ws| && SameRequest(s.ws[i], w')
    requires Attempted(s, i) ==> LiveRow(w')
    requires Unsent(w'.status) ==> Unsent(s.ws[i].status) || Unpaid(s, i)
    ensures FlowInv(cfg, WithRow(s, i, b', w'))
  {
    var s' := WithRow(s, i, b', w');
    forall k | 0 <= k < |s'.workers| && s'.workers[k].phase.Answered? ensures AnswerOk(s', s'.workers[k]) {
      assert AnswerOk(s, s.workers[k]);
    }
    forall k | 0 <= k < |s'.workers| && IsLive(s'.workers[k])
      ensures s'.workers[k].row < |s'.ws| && LiveRow(s'.ws[s'.workers[k].row])
    {
      assert s.workers[k].row == i ==> Attempted(s, i);
    }
    FlowPayouts(cfg, s, s');
  }

  lemma FlowPayouts(cfg: Config, s: Sys, s': Sys)
    requires PayoutsOk(cfg, s) && s'.payouts == s.payouts && |s.ws| <= |s'.ws|
    requires forall i :: 0 <= i < |s.ws| ==> SameRequest(s.ws[i], s'.ws[i]) && (Unsent(s'.ws[i].status) ==> Unpaid(s, i))
    ensures PayoutsOk(cfg, s')
  {
    forall p | 0 <= p < |s'.payouts| ensures PayoutOk(cfg, s', s'.payouts[p]) {
      assert PayoutOk(cfg, s, s.payouts[p]);
    }
    forall i | 0 <= i < |s'.ws| && Unsent(s'.ws[i].status) ensures Unpaid(s', i) {
      forall p | 0 <= p < |s'.payouts| ensures !LiveFor(s'.payouts[p], i) {
        assert PayoutOk(cfg, s, s.payouts[p]);
      }
    }
  }

  lemma FlowAppend(cfg: Config, s: Sys, b': Book, w: Withdrawal)
    requires FlowInv(cfg, s)
    ensures FlowInv(cfg, s.(book := b', ws := s.ws + [w]))
  {
    var s' := s.(book := b', ws := s.ws + [w]);
    forall k | 0 <= k < |s'.workers| && s'.workers[k].phase.Answered? ensures AnswerOk(s', s'.workers[k]) {
      assert AnswerOk(s, s.workers[k]);
    }
    FlowPayouts(cfg, s, s');
  }

  /** A worker that stops attempts its row no longer; nobody else did. */
  lemma FlowRetire(cfg: Config, s: Sys, k: nat)
    requires FlowInv(cfg, s) && k < |s.workers|
    ensures FlowInv(cfg, Retire(s, k))
    ensures IsLive(s.workers[k]) ==> !Attempted(Retire(s, k), s.workers[k].row)
  {
    var s' := Retire(s, k);
    forall l | 0 <= l < |s'.workers| && s'.workers[l].phase.Answered? ensures AnswerOk(s', s'.workers[l]) {
      assert AnswerOk(s, s.workers[l]);
    }
    FlowPayouts(cfg, s, s');
  }

  /** Changing nothing but status and transaction id, legally, moves no money. */
  lemma QuietRow(b: Book, w: Withdrawal, w': Withdrawal, sel: AccountKey -> bool)
    requires Consistent(b) && EntriesOk(b, w) && StatusOk(w')
    requires w' == w.(status := w'.status, txid := w'.txid)
    ensures Accounted(b, w, b, w', sel)
  {
    hide Consistent, PostedTo, RowEffect;
    ExtendsSelf(b);
    SameEntriesSameEffect(b, w, w', sel);
  }

  // -- withdrawal steps ---------------------------------------------------------------------

  ghost predicate Kept(cfg: Config, s: Sys, s': Sys, sel: AccountKey -> bool) {
    LedgerInv(s') && FlowInv(cfg, s') && (Books(s, sel) ==> Books(s', sel))
  }

  lemma RowKept(cfg: Config, s: Sys, i: nat, b': Book, w': Withdrawal, sel: AccountKey -> bool)
    requires LedgerInv(s) && FlowInv(cfg, s) && i < |s.ws| && Accounted(s.book, s.ws[i], b', w', sel)
    requires w'.submit.Some? ==> Committed(b', w') >= w'.net.value
    requires Attempted(s, i) ==> LiveRow(w')
    requires Unsent(w'.status) ==> Unsent(s.ws[i].status) || Unpaid(s, i)
    ensures Kept(cfg, s, WithRow(s, i, b', w'), sel)
  {
    hide LedgerInv, FlowInv, Books, Consistent, RowEffect, PostedTo, RowOk;
    RowStep(s, i, b', w', sel);
    FlowRow(cfg, s, i, b', w');
  }

  /** A row nobody attempts, with the statuses that let nothing be sent. */
  lemma AttemptedIsLive(cfg: Config, s: Sys, i: nat)
    requires FlowInv(cfg, s) && i < |s.ws| && Attempted(s, i)
    ensures LiveRow(s.ws[i])
  {
  }

  lemma HoldKept(cfg: Config, s: Sys, req: Request, now: int, createdAt: int, sel: AccountKey -> bool)
    requires LedgerInv(s) && FlowInv(cfg, s)
    ensures Kept(cfg, s, NextWithdrawal(cfg, s, Hold(req, now, createdAt)), sel)
  {
    hide FlowInv, Books, Consistent, RowEffect, PostedTo, RowOk, PlaceHold;
    var r := PlaceHold(s.book, s.ws, cfg.assets, req, now, createdAt);
    if r.Success? {
      PlaceHoldAccounted(s.book, s.ws, cfg.assets, req, now, createdAt, sel);
      HoldHasNoSubmit(s.book, s.ws, cfg.assets, req, now, createdAt);
      HoldStep(s, r.value.0, r.value.1, sel);
      FlowAppend(cfg, s, r.value.0, r.value.1);
    }
  }

  /** What a new row looks like. */
  lemma HoldHasNoSubmit(b: Book, ws: seq<Withdrawal>, assets: map<string, AssetRow>, req: Request, now: int, createdAt: int)
    requires PlaceHold(b, ws, assets, req, now, createdAt).Success?
    ensures var w := PlaceHold(b, ws, assets, req, now, createdAt).value.1;
      && w.submit.None? && w.settle.None? && w.release.None? && w.txid.None? && w.backendRef.None? && Unsent(w.status)
      && w.createdAt == createdAt && w.asset == req.asset && w.user == req.user && w.gross == req.gross > 0
      && req.asset in assets
      && (w.auto <==> !NeedsManual(ws, assets[req.asset], req.asset, req.user, req.gross, req.forceManual, now))
  {
    hide UserAccounts, Post, NeedsManual;
  }

  lemma ApproveKept(cfg: Config, s: Sys, i: nat, policy: FeePolicy, token: nat, sel: AccountKey -> bool)
    requires LedgerInv(s) && FlowInv(cfg, s)
    ensures Kept(cfg, s, NextWithdrawal(cfg, s, ApproveRow(i, policy, token)), sel)
  {
    hide Books, Consistent, RowEffect, PostedTo, SubmitManual, QuoteFor, WorkersOk, PayoutsOk;
    if i < |s.ws| && ApprovedOutcome(s.book, i, s.ws[i], policy, token).Success? {
      var w := s.ws[i];
      var approved := w.(status := Approved);
      assert RowInv(s.book, w);
      if Attempted(s, i) {
        AttemptedIsLive(cfg, s, i);
        assert false;
      }
      QuietRow(s.book, w, approved, sel);
      if w.backend == ManualTron {
        QuotesAreSound(policy, w.gross);
        SubmitManualAccounted(s.book, i, approved, token, QuoteFor(policy, w.gross).value, sel);
        var (b', w') := ApprovedOutcome(s.book, i, w, policy, token).value;
        AccountedThrough(s.book, w, approved, b', w', sel);
        RowKept(cfg, s, i, b', w', sel);
      } else {
        RowKept(cfg, s, i, s.book, approved, sel);
      }
    }
  }

  /** Accounting composes over a quiet first half. */
  lemma AccountedThrough(b: Book, w: Withdrawal, w1: Withdrawal, b': Book, w': Withdrawal, sel: AccountKey -> bool)
    requires Accounted(b, w, b, w1, sel) && Accounted(b, w1, b', w', sel)
    ensures Accounted(b, w, b', w', sel)
  {
    hide Consistent, Extends, NoDepositCredits, RowOk, RowEffect;
  }

  lemma RejectKept(cfg: Config, s: Sys, i: nat, actor: string, sel: AccountKey -> bool)
    requires LedgerInv(s) && FlowInv(cfg, s)
    ensures Kept(cfg, s, NextWithdrawal(cfg, s, RejectRow(i, actor)), sel)
  {
    hide Books, Consistent, RowEffect, PostedTo, ReleaseHold, WorkersOk, PayoutsOk;
    if i < |s.ws| && Reject(s.book, i, s.ws[i], actor).Success? {
      var w := s.ws[i];
      var rejected := w.(status := Rejected);
      assert RowInv(s.book, w);
      if Attempted(s, i) {
        AttemptedIsLive(cfg, s, i);
        assert false;
      }
      ReleaseHoldAccounted(s.book, i, rejected, actor, None, sel);
      SameEntriesSameEffect(s.book, w, rejected, sel);
      var (b', w') := Reject(s.book, i, w, actor).value;
      ReleasedCommitment(s.book, i, rejected, actor, None);
      RowKept(cfg, s, i, b', w', sel);
    }
  }

  /** Releasing does not change what was committed. */
  lemma ReleasedCommitment(b: Book, i: nat, w: Withdrawal, actor: string, attestation: Option<string>)
    requires Consistent(b) && EntriesOk(b, w) && w.settle.None? && w.release.None?
    requires w.backendRef.Some? <==> w.submit.Some?
    requires ReleaseHold(b, i, w, actor, attestation).Success?
    ensures var (b', w') := ReleaseHold(b, i, w, actor, attestation).value;
      w'.submit == w.submit && w'.net == w.net && Committed(b', w') == Committed(b, w)
  {
    hide Consistent, Extends, RowEffect, ReleaseHold;
    ReleaseHoldAccounted(b, i, w, actor, attestation, _ => true);
    var (b', w') := ReleaseHold(b, i, w, actor, attestation).value;
    PostedToStable(b, b', w.submit, PayoutsInFlight);
  }

  lemma ReleaseKept(cfg: Config, s: Sys, i: nat, actor: string, attestation: Option<string>, sel: AccountKey -> bool)
    requires LedgerInv(s) && FlowInv(cfg, s) && i < |s.ws| && !Attempted(s, i)
    ensures Kept(cfg, s, CommitRow(s, i, ReleaseHold(s.book, i, s.ws[i], actor, attestation)), sel)
  {
    hide Books, Consistent, RowEffect, PostedTo, ReleaseHold, WorkersOk, PayoutsOk;
    var w := s.ws[i];
    var r := ReleaseHold(s.book, i, w, actor, attestation);
    assert RowInv(s.book, w);
    if r.Success? {
      ReleasableRow(s.book, i, w, actor, attestation);
      ReleaseHoldAccounted(s.book, i, w, actor, attestation, sel);
      ReleasedCommitment(s.book, i, w, actor, attestation);
      RowKept(cfg, s, i, r.value.0, r.value.1, sel);
    }
  }

  lemma ReleasableRow(b: Book, i: nat, w: Withdrawal, actor: string, attestation: Option<string>)
    requires RowOk(b, w) && ReleaseHold(b, i, w, actor, attestation).Success?
    ensures w.settle.None? && w.release.None?
  {
    hide PostUnsubmitEntry, PostReleaseEntry, PostedTo;
  }

  lemma EventKept(cfg: Config, s: Sys, i: nat, report: Report, actual: Option<int>, sel: AccountKey -> bool)
    requires LedgerInv(s) && FlowInv(cfg, s) && Admissible(s, PayoutEvent(i, report, actual))
    ensures Kept(cfg, s, NextWithdrawal(cfg, s, PayoutEvent(i, report, actual)), sel)
  {
    hide Books, Consistent, RowEffect, PostedTo, ApplyPayoutState, WorkersOk, PayoutsOk, Accounted;
    if i < |s.ws| && Correlated(s.ws[i], i, report) {
      var w := s.ws[i];
      var r := ApplyPayoutState(s.book, s.ws, i, w, report, actual);
      assert RowInv(s.book, w);
      if r.Success? {
        ApplyPayoutStateAccounted(s.book, s.ws, i, w, report, actual, sel);
        EventStatus(s.book, s.ws, i, w, report, actual);
        AccountedRow(s.book, w, r.value.0, r.value.1, sel);
        if Attempted(s, i) {
          AttemptedIsLive(cfg, s, i);
        }
        RowKept(cfg, s, i, r.value.0, r.value.1, sel);
      }
    }
  }

  lemma AccountedRow(b: Book, w: Withdrawal, b': Book, w': Withdrawal, sel: AccountKey -> bool)
    requires Accounted(b, w, b', w', sel)
    ensures RowOk(b', w') && SameRequest(w, w')
  {
  }

  /** Where an applied report can leave the status. */
  lemma EventStatus(b: Book, ws: seq<Withdrawal>, i: nat, w: Withdrawal, report: Report, actual: Option<int>)
    requires ApplyPayoutState(b, ws, i, w, report, actual).Success?
    ensures var w' := ApplyPayoutState(b, ws, i, w, report, actual).value.1;
      && (w'.status == w.status || (PayoutTarget(report.state) == Some(w'.status) && w'.status in Allowed(w.status)))
      && (w'.txid == w.txid || (w.txid.None? && w'.txid == report.txid)) && TxidFree(ws, i, w'.txid)
      && (w'.status != w.status && w'.status == Confirmed ==> w'.settle.Some?)
  {
    hide MoveTo, TxidFree;
    var w1 := if report.txid.Some? && w.txid.None? then w.(txid := report.txid) else w;
    if PayoutTarget(report.state).Some? {
      MoveStatusOnly(b, i, w1, PayoutTarget(report.state).value, actual);
    }
  }

  lemma MoveStatusOnly(b: Book, i: nat, w: Withdrawal, target: Status, actual: Option<int>)
    ensures var r := MoveTo(b, i, w, target, actual);
      r.Success? ==>
        && r.value.1 == w.(status := r.value.1.status, settle := r.value.1.settle)
        && (r.value.1.status == w.status || (r.value.1.status == target && target in Allowed(w.status)))
        && (r.value.1.status != w.status && r.value.1.status == Confirmed ==> r.value.1.settle.Some?)
  {
    hide PostSettleEntry;
    SettleSetsOnlySettle(b, i, w, actual);
  }

  lemma SettleSetsOnlySettle(b: Book, i: nat, w: Withdrawal, actual: Option<int>)
    ensures var r := PostSettleEntry(b, i, w, actual);
      r.Success? ==> r.value.1.settle.Some? && r.value.1 == w.(settle := r.value.1.settle)
  {
    hide Post, UserAccounts, SettlePostings, PostedTo;
  }

  lemma BroadcastKept(cfg: Config, s: Sys, i: nat, txid: string, sel: AccountKey -> bool)
    requires LedgerInv(s) && FlowInv(cfg, s)
    ensures Kept(cfg, s, NextWithdrawal(cfg, s, OperatorBroadcast(i, txid)), sel)
  {
    hide Books, Consistent, RowEffect, PostedTo, Tron.Verdict, Normalized, TxidFree, WorkersOk, PayoutsOk;
    if i < |s.ws| && MarkBroadcast(s.ws, i, s.ws[i], cfg.chain, txid).Success? {
      var w := s.ws[i];
      assert RowInv(s.book, w);
      var w' := MarkBroadcast(s.ws, i, w, cfg.chain, txid).value;
      if Attempted(s, i) {
        AttemptedIsLive(cfg, s, i);
        assert false;
      }
      QuietRow(s.book, w, w', sel);
      RowKept(cfg, s, i, s.book, w', sel);
    }
  }

  lemma PollKept(cfg: Config, s: Sys, i: nat, height: int, required: int, sel: AccountKey -> bool)
    requires LedgerInv(s) && FlowInv(cfg, s)
    ensures Kept(cfg, s, NextWithdrawal(cfg, s, OperatorPoll(i, height, required)), sel)
  {
    hide Books, Consistent, RowEffect, PostedTo, PollManual, WorkersOk, PayoutsOk, Accounted;
    if i < |s.ws| && s.ws[i].backend == ManualTron {
      var w := s.ws[i];
      assert RowInv(s.book, w);
      var r := PollManual(s.book, i, w, cfg.chain, height, required);
      if r.Success? {
        PollManualAccounted(s.book, i, w, cfg.chain, height, required, sel);
        PollStatus(s.book, i, w, cfg.chain, height, required);
        AccountedRow(s.book, w, r.value.0, r.value.1, sel);
        if Attempted(s, i) {
          AttemptedIsLive(cfg, s, i);
          assert false;
        }
        RowKept(cfg, s, i, r.value.0, r.value.1, sel);
      }
    }
  }

  lemma PollStatus(b: Book, i: nat, w: Withdrawal, chain: Tron.Chain, height: int, required: int)
    requires PollManual(b, i, w, chain, height, required).Success?
    ensures var w' := PollManual(b, i, w, chain, height, required).value.1;
      w'.status == w.status || (w.status == Broadcast && w'.status == Confirmed && w.txid.Some? && w.net.Some?
        && exists index: nat :: Tron.Backs(chain, w.txid.value, index, w.destination, w.net.value)
             && Tron.Confirmations(height, chain.transactions[w.txid.value].block) >= required)
  {
    hide PostSettleEntry;
  }

  lemma NextWithdrawalKept(cfg: Config, s: Sys, step: Step, sel: AccountKey -> bool)
    requires LedgerInv(s) && FlowInv(cfg, s) && Admissible(s, step)
    ensures Kept(cfg, s, NextWithdrawal(cfg, s, step), sel)
  {
    hide LedgerInv, FlowInv, Books;
    match step {
      case Hold(req, now, createdAt) => HoldKept(cfg, s, req, now, createdAt, sel);
      case ApproveRow(i, policy, token) => ApproveKept(cfg, s, i, policy, token, sel);
      case RejectRow(i, actor) => RejectKept(cfg, s, i, actor, sel);
      case AdminRelease(i, actor, attestation) =>
        if i < |s.ws| {
          ReleaseKept(cfg, s, i, actor, Some(attestation), sel);
        }
      case PayoutEvent(i, report, actual) => EventKept(cfg, s, i, report, actual, sel);
      case OperatorBroadcast(i, txid) => BroadcastKept(cfg, s, i, txid, sel);
      case OperatorPoll(i, height, required) => PollKept(cfg, s, i, height, required, sel);
      case _ =>
    }
  }
}
