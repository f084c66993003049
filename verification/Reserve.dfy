/** Full reserve: while users pay the network fee, and no rail charges more than they paid, the
    hot wallet covers every withdrawal and no balance CHECK ever stops one. */
module Reserve {
  import opened Wrappers
  import opened Sums
  import opened Ledger
  import opened Fees
  import opened Withdrawals
  import opened WithdrawalBooks
  import opened MoneyPath
  import opened MoneyInvariants
  import opened MoneyFlow
  import opened MoneyRuns
  import opened LedgerChecker
  import opened Custody
  import D = Deposits
  import DB = DepositBooks

  /** No flight committed more than the user gave up, no settlement cost more than was charged. */
  ghost predicate CoverRow(b: Book, w: Withdrawal) {
    (w.submit.Some? ==> Committed(b, w) <= w.gross) && (w.settle.Some? ==> BookedFee(b, w) <= SettleFee(w))
  }

  ghost predicate CoverRows(s: Sys) {
    forall i :: 0 <= i < |s.ws| ==> CoverRow(s.book, s.ws[i])
  }

  ghost predicate CoverWorkers(s: Sys) {
    forall k :: 0 <= k < |s.workers| && s.workers[k].phase.Answered? ==>
      s.workers[k].row < |s.ws| && Covered(s.workers[k].phase.quote, s.ws[s.workers[k].row].gross)
  }

  ghost predicate CoverInv(s: Sys) {
    CoverRows(s) && CoverWorkers(s)
  }

  // -- every step keeps it -------------------------------------------------------------------

  lemma CoverStable(s: Sys, b': Book)
    requires LedgerInv(s) && CoverRows(s) && Extends(s.book, b')
    ensures forall i :: 0 <= i < |s.ws| ==> CoverRow(b', s.ws[i])
  {
    hide Consistent, Extends, RowEffect, PostedTo, D.DepositOk, CreditsOwned;
    forall i | 0 <= i < |s.ws| ensures CoverRow(b', s.ws[i]) {
      assert RowInv(s.book, s.ws[i]);
      RowStable(s.book, b', s.ws[i]);
    }
  }

  lemma CoverRowStep(s: Sys, i: nat, b': Book, w': Withdrawal)
    requires LedgerInv(s) && CoverInv(s) && i < |s.ws| && Extends(s.book, b')
    requires CoverRow(b', w') && w'.gross == s.ws[i].gross
    ensures CoverInv(WithRow(s, i, b', w'))
  {
    hide LedgerInv, Extends, CoverRow;
    CoverStable(s, b');
  }

  /** A row whose entries and fee did not change is still covered. */
  lemma CoverSame(b: Book, b': Book, w: Withdrawal, w': Withdrawal)
    requires Consistent(b) && Extends(b, b') && EntriesOk(b, w) && CoverRow(b, w)
    requires w'.submit == w.submit && w'.settle == w.settle && w'.gross == w.gross && w'.fee == w.fee
    ensures CoverRow(b', w')
  {
    hide Consistent, Extends, RowEffect, PostedTo;
    RowStable(b, b', w);
  }

  lemma ReleaseCovers(s: Sys, i: nat, w: Withdrawal, actor: string, attestation: Option<string>)
    requires LedgerInv(s) && CoverInv(s) && i < |s.ws| && w == s.ws[i].(status := w.status) && RowOk(s.book, s.ws[i])
    ensures CoverInv(CommitRow(s, i, ReleaseHold(s.book, i, w, actor, attestation)))
  {
    hide CoverInv, Consistent, RowEffect, PostedTo, PostUnsubmitEntry, PostReleaseEntry, CoverRow;
    var r := ReleaseHold(s.book, i, w, actor, attestation);
    if r.Success? {
      ReleaseHoldStep(s.book, i, w, actor, attestation);
      CoverHere(s, i);
      CoverSame(s.book, r.value.0, s.ws[i], r.value.1);
      CoverRowStep(s, i, r.value.0, r.value.1);
    }
  }

  lemma CoverHere(s: Sys, i: nat)
    requires CoverInv(s) && i < |s.ws|
    ensures CoverRow(s.book, s.ws[i])
  {
  }

  lemma ReleaseHoldStep(b: Book, i: nat, w: Withdrawal, actor: string, attestation: Option<string>)
    requires Consistent(b) && ReleaseHold(b, i, w, actor, attestation).Success?
    ensures var (b', w') := ReleaseHold(b, i, w, actor, attestation).value;
      Extends(b, b') && w'.submit == w.submit && w'.settle == w.settle && w'.gross == w.gross && w'.fee == w.fee
  {
    hide Consistent, Extends, PostedTo, PostUnsubmitEntry, PostReleaseEntry;
    ExtendsSelf(b);
    if w.release.None? {
      UnsubmitStep(b, i, w, _ => true);
      PostReleaseStep(PostUnsubmitEntry(b, i, w).value, i, w, _ => true);
      ExtendsTransitive(b, PostUnsubmitEntry(b, i, w).value, ReleaseHold(b, i, w, actor, attestation).value.0);
    }
  }

  lemma RecordCovers(s: Sys, i: nat, ref: Reference, q: FeeQuote)
    requires LedgerInv(s) && CoverInv(s) && i < |s.ws| && s.ws[i].settle.None? && Covered(q, s.ws[i].gross)
    ensures CoverInv(CommitRow(s, i, RecordSubmission(s.book, i, s.ws[i], ref, q)))
  {
    hide CoverInv, Consistent, RowEffect, PostedTo, PostSubmitEntry, D.DepositOk, CreditsOwned, RowOk;
    var w := s.ws[i];
    var r := RecordSubmission(s.book, i, w, ref, q);
    if r.Success? {
      PostSubmitStep(s.book, i, w.(backendRef := Some(ref), fee := Some(q.fee), net := Some(q.net)), q, _ => true);
      CoverRowStep(s, i, r.value.0, r.value.1);
    }
  }

  lemma ApproveCovers(cfg: Config, s: Sys, i: nat, policy: FeePolicy, token: nat)
    requires LedgerInv(s) && CoverInv(s) && Deducts(policy)
    ensures CoverInv(NextWithdrawal(cfg, s, ApproveRow(i, policy, token)))
  {
    hide CoverInv, Consistent, RowEffect, PostedTo, PostSubmitEntry, QuoteFor, D.DepositOk, CreditsOwned, CoverRow;
    if i < |s.ws| && ApprovedOutcome(s.book, i, s.ws[i], policy, token).Success? {
      var w := s.ws[i];
      var (b', w') := ApprovedOutcome(s.book, i, w, policy, token).value;
      assert RowInv(s.book, w);
      if w.backend == ManualTron {
        QuotesAreSound(policy, w.gross);
        ManualCovers(s.book, i, w.(status := Approved), token, QuoteFor(policy, w.gross).value);
      } else {
        ExtendsSelf(s.book);
        CoverHere(s, i);
        CoverSame(s.book, s.book, w, w');
      }
      CoverRowStep(s, i, b', w');
    }
  }

  lemma ManualCovers(b: Book, i: nat, w: Withdrawal, token: nat, q: FeeQuote)
    requires Consistent(b) && w.settle.None? && Covered(q, w.gross) && SubmitManual(b, i, w, token, q).Success?
    ensures var (b', w') := SubmitManual(b, i, w, token, q).value; Extends(b, b') && CoverRow(b', w') && w'.gross == w.gross
  {
    hide Consistent, Extends, PostedTo, PostSubmitEntry;
    PostSubmitStep(b, i, w.(backendRef := Some(ManualRef(token)), fee := Some(q.fee), net := Some(q.net)), q, _ => true);
  }

  /** The network fee a report books: the actual one, or else what was estimated. */
  lemma SettleCovers(b: Book, i: nat, w: Withdrawal, actual: Option<int>)
    requires Consistent(b) && RowInv(b, w) && CoverRow(b, w) && w.settle.None?
    requires actual.Some? ==> actual.value <= SettleFee(w)
    requires PostSettleEntry(b, i, w, actual).Success?
    ensures var (b', w') := PostSettleEntry(b, i, w, actual).value;
      Extends(b, b') && CoverRow(b', w') && w' == w.(settle := w'.settle)
  {
    hide Consistent, Extends, PostedTo, PostSettleEntry, RowEffect;
    PostSettleStep(b, i, w, actual, _ => true);
    RowStable(b, PostSettleEntry(b, i, w, actual).value.0, w);
  }

  lemma MoveCovers(b: Book, i: nat, w: Withdrawal, target: Status, actual: Option<int>)
    requires Consistent(b) && RowInv(b, w) && CoverRow(b, w)
    requires actual.Some? ==> actual.value <= SettleFee(w)
    requires MoveTo(b, i, w, target, actual).Success?
    ensures var (b', w') := MoveTo(b, i, w, target, actual).value; Extends(b, b') && CoverRow(b', w') && w'.gross == w.gross
  {
    hide Consistent, Extends, PostedTo, PostSettleEntry;
    ExtendsSelf(b);
    if target == Confirmed && w.settle.None? {
      SettleCovers(b, i, w, actual);
    }
  }

  lemma EventCovers(cfg: Config, s: Sys, i: nat, report: Report, actual: Option<int>)
    requires LedgerInv(s) && CoverInv(s) && Deducting(s, PayoutEvent(i, report, actual))
    ensures CoverInv(NextWithdrawal(cfg, s, PayoutEvent(i, report, actual)))
  {
    hide CoverInv, Consistent, RowEffect, PostedTo, MoveTo, TxidFree, D.DepositOk, CreditsOwned, Extends;
    if i < |s.ws| && ApplyPayoutState(s.book, s.ws, i, s.ws[i], report, actual).Success? {
      var w := s.ws[i];
      assert RowInv(s.book, w);
      CoverHere(s, i);
      ExtendsSelf(s.book);
      var w1 := if report.txid.Some? && w.txid.None? then w.(txid := report.txid) else w;
      var (b', w') := ApplyPayoutState(s.book, s.ws, i, w, report, actual).value;
      if PayoutTarget(report.state).Some? {
        MoveCovers(s.book, i, w1, PayoutTarget(report.state).value, actual);
      }
      CoverRowStep(s, i, b', w');
    }
  }

  lemma PollCovers(cfg: Config, s: Sys, i: nat, height: int, required: int)
    requires LedgerInv(s) && CoverInv(s)
    ensures CoverInv(NextWithdrawal(cfg, s, OperatorPoll(i, height, required)))
  {
    hide CoverInv, Consistent, RowEffect, PostedTo, PostSettleEntry, D.DepositOk, CreditsOwned, Extends;
    if i < |s.ws| && PollManual(s.book, i, s.ws[i], cfg.chain, height, required).Success? {
      var w := s.ws[i];
      assert RowInv(s.book, w);
      CoverHere(s, i);
      ExtendsSelf(s.book);
      var (b', w') := PollManual(s.book, i, w, cfg.chain, height, required).value;
      if w' != w && w.settle.None? {
        SettleCovers(s.book, i, w, None);
      }
      CoverRowStep(s, i, b', w');
    }
  }

  lemma NextWithdrawalCovers(cfg: Config, s: Sys, step: Step)
    requires LedgerInv(s) && CoverInv(s) && Deducting(s, step)
    ensures CoverInv(NextWithdrawal(cfg, s, step))
  {
    hide LedgerInv, CoverInv, Consistent, RowEffect, PostedTo, PlaceHold, Extends, Tron.Verdict, Normalized, TxidFree;
    match step {
      case Hold(req, now, createdAt) => HoldCovers(cfg, s, req, now, createdAt);
      case ApproveRow(i, policy, token) => ApproveCovers(cfg, s, i, policy, token);
      case RejectRow(i, actor) =>
        if i < |s.ws| && s.ws[i].status == PendingApproval {
          RowHere(s, i);
          ReleaseCovers(s, i, s.ws[i].(status := Rejected), actor, None);
        }
      case AdminRelease(i, actor, attestation) =>
        if i < |s.ws| {
          RowHere(s, i);
          ReleaseCovers(s, i, s.ws[i], actor, Some(attestation));
        }
      case PayoutEvent(i, report, actual) => EventCovers(cfg, s, i, report, actual);
      case OperatorBroadcast(i, txid) =>
        if i < |s.ws| && MarkBroadcast(s.ws, i, s.ws[i], cfg.chain, txid).Success? {
          QuietCovers(s, i, MarkBroadcast(s.ws, i, s.ws[i], cfg.chain, txid).value);
        }
      case OperatorPoll(i, height, required) => PollCovers(cfg, s, i, height, required);
      case _ =>
    }
  }

  lemma RowHere(s: Sys, i: nat)
    requires LedgerInv(s) && i < |s.ws|
    ensures Consistent(s.book) && RowInv(s.book, s.ws[i])
  {
  }

  lemma QuietCovers(s: Sys, i: nat, w': Withdrawal)
    requires LedgerInv(s) && CoverInv(s) && i < |s.ws| && w' == s.ws[i].(status := w'.status, txid := w'.txid)
    ensures CoverInv(WithRow(s, i, s.book, w'))
  {
    hide LedgerInv, CoverInv, Consistent, Extends, PostedTo, RowEffect, CoverRow;
    RowHere(s, i);
    CoverHere(s, i);
    ExtendsSelf(s.book);
    CoverSame(s.book, s.book, s.ws[i], w');
    CoverRowStep(s, i, s.book, w');
  }

  lemma HoldCovers(cfg: Config, s: Sys, req: Request, now: int, createdAt: int)
    requires LedgerInv(s) && CoverInv(s)
    ensures CoverInv(NextWithdrawal(cfg, s, Hold(req, now, createdAt)))
  {
    hide Consistent, RowEffect, PostedTo, PlaceHold, Extends, RowOk, D.DepositOk, CreditsOwned;
    var r := PlaceHold(s.book, s.ws, cfg.assets, req, now, createdAt);
    if r.Success? {
      PlaceHoldAccounted(s.book, s.ws, cfg.assets, req, now, createdAt, _ => true);
      HoldHasNoSubmit(s.book, s.ws, cfg.assets, req, now, createdAt);
      CoverStable(s, r.value.0);
    }
  }

  lemma CreateCovers(cfg: Config, s: Sys, k: nat, policy: FeePolicy, created: bool, answered: bool)
    requires CoverInv(s) && Deducts(policy)
    ensures CoverInv(NextWorker(cfg, s, Create(k, policy, created, answered)))
  {
    hide CoverRow, QuoteFor, AmountText, Covered;
    if Working(s, k) && s.workers[k].phase.Claimed? && QuoteFor(policy, s.ws[s.workers[k].row].gross).Success? {
      QuotesAreSound(policy, s.ws[s.workers[k].row].gross);
    }
  }

  lemma AbandonCovers(cfg: Config, s: Sys, k: nat, reason: string)
    requires LedgerInv(s) && CoverInv(s) && Working(s, k)
    ensures CoverInv(NextWorker(cfg, s, Abandon(k, reason)))
  {
    hide LedgerInv, ReleaseHold, CoverRow, Covered;
    var i := s.workers[k].row;
    RowHere(s, i);
    ReleaseCovers(s, i, s.ws[i], ACTOR_NEVER_SUBMITTED, Some(NeverSentProof(reason)));
  }

  lemma RecordStepCovers(cfg: Config, s: Sys, k: nat)
    requires LedgerInv(s) && FlowInv(cfg, s) && CoverInv(s) && Working(s, k) && s.workers[k].phase.Answered?
    ensures CoverInv(NextWorker(cfg, s, Record(k)))
  {
    hide LedgerInv, FlowInv, RecordSubmission, CoverRow, Covered;
    var Worker(i, Answered(p, q)) := s.workers[k];
    AnswerFacts(cfg, s, k);
    RecordCovers(s, i, PayoutRef(p), q);
  }

  lemma NextWorkerCovers(cfg: Config, s: Sys, step: Step)
    requires LedgerInv(s) && FlowInv(cfg, s) && CoverInv(s) && Deducting(s, step) && Admissible(s, step)
    ensures CoverInv(NextWorker(cfg, s, step))
  {
    hide LedgerInv, FlowInv, Consistent, RowEffect, PostedTo, Extends, ReleaseHold, RecordSubmission, QuoteFor, CoverRow,
         AmountText, Unclaimed, QuoteFromPayout, Covered, Created, ResolveDecision;
    match step {
      case ClaimRow(i) =>
        if i < |s.ws| && Claim(s.ws[i]).Some? {
          QuietCovers(s, i, Claim(s.ws[i]).value);
        }
      case Abandon(k, reason) =>
        if Working(s, k) && s.workers[k].phase.Claimed? {
          AbandonCovers(cfg, s, k, reason);
        }
      case Create(k, policy, created, answered) =>
        CreateCovers(cfg, s, k, policy, created, answered);
      case Record(k) =>
        if Working(s, k) && s.workers[k].phase.Answered? {
          RecordStepCovers(cfg, s, k);
        }
      case ResolveStuck(i) =>
        if i < |s.ws| && Stuck(s.ws[i]) {
          ResolveCovers(cfg, s, i);
        }
      case _ =>
    }
  }

  lemma ResolveCovers(cfg: Config, s: Sys, i: nat)
    requires LedgerInv(s) && FlowInv(cfg, s) && CoverInv(s) && i < |s.ws| && Stuck(s.ws[i])
    ensures CoverInv(ResolveDecision(cfg, s, i))
  {
    hide LedgerInv, FlowInv, CoverInv, Consistent, RowEffect, PostedTo, Extends, RecordSubmission, Unclaimed, QuoteFromPayout, Covered;
    StuckFacts(s, i);
    match FindMine(s.payouts, i) {
      case Some(p) =>
        var q := PayoutFacts(cfg, s, i, p);
        RecordCovers(s, i, PayoutRef(p), q);
      case None =>
        QuietCovers(s, i, s.ws[i].(status := Approved));
    }
  }

  lemma DepositsCover(s: Sys, step: Step)
    requires LedgerInv(s) && CoverInv(s)
    ensures CoverInv(NextDeposit(s, step))
  {
    hide LedgerInv, Consistent, CoverRow, Extends, D.ApplyInvoiceState, D.ResolveReview;
    var s' := NextDeposit(s, step);
    DepositsExtend(s, step);
    CoverStable(s, s'.book);
    assert s'.ws == s.ws && s'.workers == s.workers;
  }

  lemma DepositsExtend(s: Sys, step: Step)
    requires LedgerInv(s)
    ensures Extends(s.book, NextDeposit(s, step).book)
  {
    hide Extends, Consistent, D.ApplyInvoiceState, D.ResolveReview, D.DepositOk, InvoiceFree, D.DepositEffect, D.CreditsKnown;
    ExtendsSelf(s.book);
    match step {
      case ApplyInvoice(j, snapshot, terms) =>
        if j < |s.deposits| {
          var free := InvoiceFree(s.deposits, j, snapshot.invoice);
          if D.ApplyInvoiceState(s.book, s.deposits[j], snapshot, terms, free).Success? {
            ApplyExtends(s, j, snapshot, terms);
          }
        }
      case ResolveDeposit(j, action, payments, terms) =>
        if j < |s.deposits| && D.ResolveReview(s.book, s.deposits[j], action, payments, terms).Success? {
          if s.deposits[j].invoice.Some? {
            HeldInvoiceIsFree(s, j);
            CreditsAreKnown(s, j, s.deposits[j].invoice.value);
          }
          DB.ResolveReviewAccounted(s.book, s.deposits[j], action, payments, terms, _ => true);
        }
      case _ =>
    }
  }

  lemma ApplyExtends(s: Sys, j: nat, snapshot: D.Snapshot, terms: D.Terms)
    requires LedgerInv(s) && j < |s.deposits|
    requires D.ApplyInvoiceState(s.book, s.deposits[j], snapshot, terms, InvoiceFree(s.deposits, j, snapshot.invoice)).Success?
    ensures Extends(s.book, D.ApplyInvoiceState(s.book, s.deposits[j], snapshot, terms,
                                                InvoiceFree(s.deposits, j, snapshot.invoice)).value.0)
  {
    hide Extends, Consistent, D.RecordAll, D.DepositOk, InvoiceFree, D.DepositEffect, D.CreditsKnown, D.Target, D.Reading;
    var d := s.deposits[j];
    if d.invoice.Some? {
      HeldInvoiceIsFree(s, j);
    }
    if D.Acts(d, snapshot) {
      CreditsAreKnown(s, j, snapshot.invoice);
      DB.ApplyInvoiceStateAccounted(s.book, d, snapshot, terms, InvoiceFree(s.deposits, j, snapshot.invoice), _ => true);
    } else {
      ExtendsSelf(s.book);
    }
  }

  lemma NextCovers(cfg: Config, s: Sys, step: Step)
    requires LedgerInv(s) && FlowInv(cfg, s) && CoverInv(s) && Admissible(s, step) && Deducting(s, step)
    ensures CoverInv(Next(cfg, s, step))
  {
    hide LedgerInv, FlowInv, CoverInv, Admissible, Deducting, NextWithdrawal, NextWorker, NextDeposit;
    if IsDepositStep(step) {
      DepositsCover(s, step);
    } else if IsWorkerStep(step) {
      NextWorkerCovers(cfg, s, step);
    } else {
      NextWithdrawalCovers(cfg, s, step);
    }
  }

  lemma {:induction false} HistoryCovers(cfg: Config, states: seq<Sys>, steps: seq<Step>, n: nat)
    requires DeductingHistory(cfg, states, steps) && n <= |steps|
    ensures CoverInv(states[n])
  {
    hide LedgerInv, FlowInv, Admissible, Deducting, Next;
    if n > 0 {
      hide CoverInv, IsInitial;
      HistoryCovers(cfg, states, steps, n - 1);
      HistoryKept(cfg, states, steps, n - 1, _ => true);
      assert StepAt(cfg, states, steps, n - 1) && DeductsAt(states, steps, n - 1);
      NextCovers(cfg, states[n - 1], steps[n - 1]);
    }
  }

  lemma ReachableCovers(cfg: Config, s: Sys)
    requires ReachableDeducting(cfg, s)
    ensures CoverInv(s) && Reachable(cfg, s)
  {
    hide CoverInv, IsInitial, StepAt;
    var states, steps :| DeductingHistory(cfg, states, steps) && states[|steps|] == s;
    HistoryCovers(cfg, states, steps, |steps|);
  }

  lemma ReserveNonNegative(s: Sys, asset: string)
    requires LedgerInv(s) && CoverInv(s)
    ensures forall i :: 0 <= i < |s.ws| ==> ReserveOf(s.book, asset)(s.ws[i]) >= 0
  {
    hide LedgerInv, Consistent, PostedTo;
    forall i | 0 <= i < |s.ws| ensures ReserveOf(s.book, asset)(s.ws[i]) >= 0 {
      RowHere(s, i);
      CoverHere(s, i);
    }
  }

  /** Full reserve: the hot wallet is what users have available plus terms that are never
      negative, so it always covers them. */
  lemma HotWalletCoversAvailable(cfg: Config, s: Sys, asset: string)
    requires ReachableDeducting(cfg, s)
    ensures forall i :: 0 <= i < |s.ws| ==> ReserveOf(s.book, asset)(s.ws[i]) >= 0
    ensures Balance(s.book, SystemKey(asset, HotWallet)) >= -KindSum(s.book.accounts, asset, UserAvailable)
  {
    hide Reachable, ReachableDeducting, LedgerInv, FlowInv, Books, CoverInv, ReserveOf;
    ReachableCovers(cfg, s);
    ReachableKept(cfg, s, WalletSel(asset));
    ReserveOfInvariant(s, asset);
    ReserveNonNegative(s, asset);
    SumNonNegative(s.ws, ReserveOf(s.book, asset));
  }
}
