/** Deposits over whole runs: every payment is credited at most once, the journal and the rows
    agree on what was credited, and only an administrator takes a deposit out of review. */
module Credits {
  import opened Wrappers
  import opened Sums
  import opened Ledger
  import opened MoneyPath
  import opened MoneyInvariants
  import opened MoneyFlow
  import opened MoneyRuns
  import opened Scenarios
  import opened D = Deposits
  import Amounts
  import Custody
  import DB = DepositBooks
  import W = Withdrawals
  import WB = WithdrawalBooks

  /** What one journal entry credited from an invoice into custody. */
  function CreditFrom(b: Book, invoice: string): Entry -> int {
    (e: Entry) => if IsCreditOf(e, invoice) then PostingSum(b.accounts, e.postings, W.KindIs(HotWallet)) else 0
  }

  /** The credited amounts whose entries are among the first `n`. */
  function CreditedBefore(n: nat): PaymentRow -> int {
    (r: PaymentRow) => if r.entry.Some? && r.entry.value < n then r.amount else 0
  }

  /** Two measures that agree on every row but one. */
  lemma {:induction false} SumBut<T>(s: seq<T>, f: T -> int, g: T -> int, i: nat)
    requires i < |s| && forall k :: 0 <= k < |s| && k != i ==> f(s[k]) == g(s[k])
    ensures Sum(s, g) == Sum(s, f) - f(s[i]) + g(s[i])
  {
    var n := |s| - 1;
    if i == n {
      SumSame(s[..n], f, g);
    } else {
      SumBut(s[..n], f, g, i);
    }
  }

  /** Entry `n` adds to the journal's side what it adds to the rows' side. */
  lemma CreditStep(b: Book, d: Deposit, invoice: string, n: nat)
    requires DepositOk(b, d) && CreditsKnown(b, d, invoice) && d.invoice == Some(invoice) && n < |b.entries|
    ensures Sum(d.rows, CreditedBefore(n + 1)) == Sum(d.rows, CreditedBefore(n)) + CreditFrom(b, invoice)(b.entries[n])
  {
    hide PostingSum;
    if IsCreditOf(b.entries[n], invoice) {
      assert HasCredit(d, b.entries[n].ref.payment, n);
      var r := FindRow(d.rows, b.entries[n].ref.payment).value;
      forall k | 0 <= k < |d.rows| && k != r ensures CreditedBefore(n)(d.rows[k]) == CreditedBefore(n + 1)(d.rows[k]) {
        assert d.rows[k].entry.Some? ==> RowEntry(b, d, d.rows[k]);
      }
      SumBut(d.rows, CreditedBefore(n), CreditedBefore(n + 1), r);
      assert RowEntry(b, d, d.rows[r]);
    } else {
      forall k | 0 <= k < |d.rows| ensures CreditedBefore(n)(d.rows[k]) == CreditedBefore(n + 1)(d.rows[k]) {
        assert d.rows[k].entry.Some? ==> RowEntry(b, d, d.rows[k]);
      }
      SumSame(d.rows, CreditedBefore(n), CreditedBefore(n + 1));
    }
  }

  lemma {:induction false} CreditsUpTo(b: Book, d: Deposit, invoice: string, n: nat)
    requires DepositOk(b, d) && CreditsKnown(b, d, invoice) && d.invoice == Some(invoice) && n <= |b.entries|
    ensures Sum(b.entries[..n], CreditFrom(b, invoice)) == Sum(d.rows, CreditedBefore(n))
  {
    hide DepositOk, CreditsKnown;
    if n == 0 {
      NothingYet(d.rows);
    } else {
      CreditsUpTo(b, d, invoice, n - 1);
      CreditStep(b, d, invoice, n - 1);
      assert b.entries[..n] == b.entries[..n - 1] + [b.entries[n - 1]];
      SumAppend(b.entries[..n - 1], b.entries[n - 1], CreditFrom(b, invoice));
    }
  }

  lemma {:induction false} NothingYet(rows: seq<PaymentRow>)
    ensures Sum(rows, CreditedBefore(0)) == 0
  {
    if rows != [] {
      NothingYet(rows[..|rows| - 1]);
    }
  }

  lemma JournalMatchesRows(b: Book, d: Deposit, invoice: string)
    requires DepositOk(b, d) && CreditsKnown(b, d, invoice) && d.invoice == Some(invoice)
    ensures d.credited == Sum(b.entries, CreditFrom(b, invoice))
  {
    hide CreditsKnown, W.PostedTo;
    CreditsUpTo(b, d, invoice, |b.entries|);
    assert b.entries[..|b.entries|] == b.entries;
    forall k | 0 <= k < |d.rows| ensures CreditedBefore(|b.entries|)(d.rows[k]) == CreditedAmount()(d.rows[k]) {
      assert d.rows[k].entry.Some? ==> RowEntry(b, d, d.rows[k]);
    }
    SumSame(d.rows, CreditedBefore(|b.entries|), CreditedAmount());
  }

  /** However webhooks, polls and administrators interleave, with whatever stale snapshots: a
      payment has one row and at most one credit, a credited row's own entry put exactly its
      amount into custody, and the deposit's total is the sum of its credited rows and of the
      journal's credits of its invoice. */
  lemma CreditedExactlyOnce(cfg: Config, s: Sys, j: nat)
    requires Reachable(cfg, s) && j < |s.deposits|
    ensures var d := s.deposits[j];
      && (forall p, q :: 0 <= p < q < |d.rows| ==> d.rows[p].payment != d.rows[q].payment)
      && (forall p :: 0 <= p < |d.rows| && d.rows[p].entry.Some? ==> RowEntry(s.book, d, d.rows[p]))
      && d.credited == Sum(d.rows, CreditedAmount())
      && (d.invoice.Some? ==> d.credited == Sum(s.book.entries, CreditFrom(s.book, d.invoice.value)))
  {
    hide Reachable, FlowInv, Books, Consistent, W.PostedTo, WB.RowOk, CreditsOwned, InvoicesDistinct;
    ReachableKept(cfg, s, _ => true);
    if s.deposits[j].invoice.Some? {
      HeldInvoiceIsFree(s, j);
      CreditsAreKnown(s, j, s.deposits[j].invoice.value);
      JournalMatchesRows(s.book, s.deposits[j], s.deposits[j].invoice.value);
    }
  }

  /** Every credit in the journal belongs to one deposit, and there is one entry per payment. */
  lemma EveryCreditHasOneOwner(cfg: Config, s: Sys, k: nat)
    requires Reachable(cfg, s) && k < |s.book.entries| && s.book.entries[k].kind == DepositCredit
    ensures exists j :: 0 <= j < |s.deposits| && Owns(s.deposits[j], s.book.entries[k], k)
    ensures forall i, j :: 0 <= i < j < |s.deposits| ==> !(Owns(s.deposits[i], s.book.entries[k], k) && Owns(s.deposits[j], s.book.entries[k], k))
    ensures forall l :: 0 <= l < |s.book.entries| && l != k && s.book.entries[l].kind == DepositCredit ==>
      s.book.entries[l].ref != s.book.entries[k].ref
  {
    hide Reachable, FlowInv, Books, W.PostedTo, WB.RowOk, DepositOk;
    ReachableKept(cfg, s, _ => true);
  }

  /** Automation neither credits a deposit in review nor takes it out: only an administrator's
      resolution of that very deposit does. */
  lemma ReviewIsSticky(cfg: Config, s: Sys, step: Step, j: nat)
    requires Reachable(cfg, s) && Admissible(s, step) && j < |s.deposits| && s.deposits[j].status == Review
    requires !(step.ResolveDeposit? && step.j == j)
    ensures var s' := Next(cfg, s, step);
      j < |s'.deposits| && s'.deposits[j].status == Review && s'.deposits[j].credited == s.deposits[j].credited
  {
    hide Reachable, LedgerInv, FlowInv, NextWithdrawal, NextWorker, ApplyInvoiceState, ResolveReview;
    ReachableKept(cfg, s, _ => true);
    if IsDepositStep(step) {
      if step.ApplyInvoice? && step.j == j {
        ReviewSurvivesSnapshot(s, j, step.snapshot, step.terms);
      }
    } else if IsWorkerStep(step) {
      WorkersLeaveDeposits(cfg, s, step);
    } else {
      WithdrawalsLeaveDeposits(cfg, s, step);
    }
  }

  lemma ReviewSurvivesSnapshot(s: Sys, j: nat, snapshot: Snapshot, terms: Terms)
    requires LedgerInv(s) && j < |s.deposits| && s.deposits[j].status == Review
    ensures var r := ApplyInvoiceState(s.book, s.deposits[j], snapshot, terms, InvoiceFree(s.deposits, j, snapshot.invoice));
      r.Success? ==> r.value.1.status == Review && r.value.1.credited == s.deposits[j].credited
  {
    hide Consistent, W.PostedTo, WB.RowOk, RecordAll, InvoiceFree, Target, Reading, DepositOk, CreditsOwned;
    var d := s.deposits[j];
    var free := InvoiceFree(s.deposits, j, snapshot.invoice);
    if d.invoice.Some? {
      HeldInvoiceIsFree(s, j);
    }
    if ApplyInvoiceState(s.book, d, snapshot, terms, free).Success? && Acts(d, snapshot) {
      CreditsAreKnown(s, j, snapshot.invoice);
      DB.AutomationNeverLeavesReview(s.book, d, snapshot, terms, free);
    }
  }

  /** Applying a final snapshot a second time is a step that changes nothing at all. */
  lemma ReappliedSnapshotChangesNothing(cfg: Config, s: Sys, j: nat, snapshot: Snapshot, terms: Terms)
    requires Reachable(cfg, s) && j < |s.deposits| && DB.Final(snapshot) && !Terminal(s.deposits[j].status)
    ensures var s1 := NextDeposit(s, ApplyInvoice(j, snapshot, terms)); NextDeposit(s1, ApplyInvoice(j, snapshot, terms)) == s1
  {
    hide Reachable, FlowInv, Books, Consistent, W.PostedTo, WB.RowOk, CreditsOwned, ApplyInvoiceState,
         InvoiceFree, DepositOk, CreditsKnown, InvoicesDistinct;
    ReachableKept(cfg, s, _ => true);
    var d := s.deposits[j];
    var free := InvoiceFree(s.deposits, j, snapshot.invoice);
    if ApplyInvoiceState(s.book, d, snapshot, terms, free).Success? {
      AppliesToOwn(s, j, snapshot, terms);
      CreditsAreKnown(s, j, snapshot.invoice);
      DB.ReplayChangesNothing(s.book, d, snapshot, terms, free);
      var s1 := NextDeposit(s, ApplyInvoice(j, snapshot, terms));
      SameFreedom(s.deposits, s1.deposits, j, snapshot.invoice);
      assert s1.deposits[j := s1.deposits[j]] == s1.deposits;
    }
  }

  lemma AppliesToOwn(s: Sys, j: nat, snapshot: Snapshot, terms: Terms)
    requires LedgerInv(s) && j < |s.deposits| && Acts(s.deposits[j], snapshot)
    requires ApplyInvoiceState(s.book, s.deposits[j], snapshot, terms, InvoiceFree(s.deposits, j, snapshot.invoice)).Success?
    ensures s.deposits[j].invoice == Some(snapshot.invoice) || InvoiceFree(s.deposits, j, snapshot.invoice)
    ensures s.deposits[j].invoice.Some? ==> s.deposits[j].invoice.value == snapshot.invoice
  {
    hide LedgerInv, RecordAll, InvoiceFree, Target, Reading;
  }

  lemma SameFreedom(ds: seq<Deposit>, ds': seq<Deposit>, j: nat, invoice: string)
    requires |ds| == |ds'| && forall k :: 0 <= k < |ds| && k != j ==> ds'[k] == ds[k]
    ensures InvoiceFree(ds', j, invoice) == InvoiceFree(ds, j, invoice)
  {
  }

  // -- why a handler's read must still hold when it writes -------------------------------------------

  /** What a handler that reads the row only now, with this invoice in hand, makes of it. */
  function AttachFresh(d: Deposit, invoice: string): Deposit {
    if d.invoice.Some? then d else Attach(d, invoice)
  }

  /** A write from an older copy does what a fresh one would exactly when it replaces no other
      invoice and brings back no status. */
  lemma StaleAttachMatters(seen: Seen, d: Deposit, invoice: string)
    ensures AttachFrom(seen, d, invoice) == AttachFresh(d, invoice) <==>
      && (d.invoice.None? || d.invoice == Some(invoice))
      && (if seen.status == Creating then d.status == Pending || (d.status == Creating && d.invoice.None?)
          else d.status != Creating || d.invoice.Some?)
  {
  }

  /** A deposit leaves review by a handler's write exactly when the handler read it in `creating`. */
  lemma StaleWriteLeavesReview(seen: Seen, d: Deposit, invoice: string)
    requires d.status == Review
    ensures AttachFrom(seen, d, invoice).status != Review <==> seen.status == Creating
    ensures MarkFailed(seen, d).Success? <==> seen.status == Creating
    ensures MarkFailed(seen, d).Success? ==> MarkFailed(seen, d).value.status == Failed
  {
  }

  predicate AnyCredited(d: Deposit) {
    exists k :: 0 <= k < |d.rows| && d.rows[k].entry.Some?
  }

  /** Whatever the handler read, its write moves no balance, and the books and the rows still
      belong together exactly when no credited payment loses the invoice it was credited from. */
  lemma StaleAttachKeeps(s: Sys, j: nat, seen: Seen, invoice: string, sel: AccountKey -> bool)
    requires LedgerInv(s) && j < |s.deposits| && seen.invoice.None? && InvoiceFree(s.deposits, j, invoice)
    ensures var s' := NextDeposit(s, AttachInvoice(j, seen, invoice));
      && (LedgerInv(s') <==> s.deposits[j].invoice.None? || s.deposits[j].invoice == Some(invoice) || !AnyCredited(s.deposits[j]))
      && (Books(s, sel) ==> Books(s', sel))
  {
    hide LedgerInv, Books, InvoiceFree, AnyCredited;
    var d := s.deposits[j];
    var d' := AttachFrom(seen, d, invoice);
    StaleAttachMovesNothing(s, j, d', sel);
    if d.invoice.None? || d.invoice == Some(invoice) {
      QuietDepositStep(s, j, d', sel);
    } else if AnyCredited(d) {
      CreditLosesInvoice(s, j, d');
    } else {
      UncreditedTakesInvoice(s, j, d', invoice);
    }
  }

  lemma StaleAttachMovesNothing(s: Sys, j: nat, d': Deposit, sel: AccountKey -> bool)
    requires j < |s.deposits| && d'.asset == s.deposits[j].asset && d'.user == s.deposits[j].user && d'.credited == s.deposits[j].credited
    ensures Books(s, sel) ==> Books(s.(deposits := s.deposits[j := d']), sel)
  {
    SumUpdate(s.deposits, j, d', DepositEffectOf(sel));
  }

  lemma CreditLosesInvoice(s: Sys, j: nat, d': Deposit)
    requires LedgerInv(s) && j < |s.deposits| && AnyCredited(s.deposits[j])
    requires d'.rows == s.deposits[j].rows && d'.invoice != s.deposits[j].invoice
    ensures !LedgerInv(s.(deposits := s.deposits[j := d']))
  {
    hide Consistent, RowInv, CreditsOwned, InvoicesDistinct, W.PostedTo;
    var s' := s.(deposits := s.deposits[j := d']);
    var k :| 0 <= k < |d'.rows| && d'.rows[k].entry.Some?;
    assert DepositOk(s.book, s.deposits[j]) && RowEntry(s.book, s.deposits[j], d'.rows[k]);
    assert !DepositOk(s'.book, s'.deposits[j]) by {
      assert !RowEntry(s.book, d', d'.rows[k]);
    }
  }

  lemma UncreditedTakesInvoice(s: Sys, j: nat, d': Deposit, invoice: string)
    requires LedgerInv(s) && j < |s.deposits| && !AnyCredited(s.deposits[j]) && InvoiceFree(s.deposits, j, invoice)
    requires d'.rows == s.deposits[j].rows && d'.credited == s.deposits[j].credited && d'.invoice == Some(invoice)
    ensures LedgerInv(s.(deposits := s.deposits[j := d']))
  {
    hide Consistent, RowInv, W.PostedTo;
    var s' := s.(deposits := s.deposits[j := d']);
    assert DepositOk(s.book, d') by {
      assert DepositOk(s.book, s.deposits[j]);
    }
    forall k | 0 <= k < |s'.book.entries| && s'.book.entries[k].kind == DepositCredit
      ensures exists o :: 0 <= o < |s'.deposits| && Owns(s'.deposits[o], s'.book.entries[k], k)
    {
      var o :| 0 <= o < |s.deposits| && Owns(s.deposits[o], s.book.entries[k], k);
      assert o != j;
      assert Owns(s'.deposits[o], s'.book.entries[k], k);
    }
  }

  /** A settled deposit with credits, taken back to `pending` under another invoice, or failed. */
  ghost predicate Undone(s: Sys, seen: Seen) {
    && |s.deposits| == 1 && s.deposits[0].status == Settled && s.deposits[0].credited > 0
    && var s' := NextDeposit(s, AttachInvoice(0, seen, "late"));
    && s'.deposits == [s.deposits[0].(invoice := Some("late"), status := Pending)] && !LedgerInv(s')
    && NextDeposit(s, FailDeposit(0, seen)).deposits == [s.deposits[0].(status := Failed)]
  }

  /** That is what a handler does that opened the deposit and comes back only after it has been
      settled and credited. */
  lemma SlowHandlerUndoesSettlement(cfg: Config, units: nat)
    requires 0 < units <= Amounts.MAX_UNITS
    ensures Next(cfg, Start(), OPENING).deposits == [NEW_DEPOSIT]
    ensures Reachable(cfg, Funded(cfg, units)) && Undone(Funded(cfg, units), SeenOf(NEW_DEPOSIT))
  {
    hide Reachable, LedgerInv, FlowInv, Books, Funded, Consistent, HasSystemAccounts, Custody.Balance, Next;
    OpeningAddsRow(cfg);
    var s := Funded(cfg, units);
    FundedIsReady(cfg, units);
    FundedIsReachable(cfg, units);
    ReachableKept(cfg, s, _ => true);
    OneCredited(s);
    StaleAttachKeeps(s, 0, SeenOf(NEW_DEPOSIT), "late", _ => true);
  }

  lemma OneCredited(s: Sys)
    requires LedgerInv(s) && |s.deposits| == 1 && s.deposits[0].credited > 0
    ensures AnyCredited(s.deposits[0])
  {
    hide Consistent, RowInv, CreditsOwned, RowEntry;
    if !AnyCredited(s.deposits[0]) {
      NothingCredited(s.deposits[0].rows);
    }
  }

  lemma {:induction false} NothingCredited(rows: seq<PaymentRow>)
    requires forall k :: 0 <= k < |rows| ==> rows[k].entry.None?
    ensures Sum(rows, CreditedAmount()) == 0
  {
    if rows != [] {
      NothingCredited(rows[..|rows| - 1]);
    }
  }

  lemma WorkersLeaveDeposits(cfg: Config, s: Sys, step: Step)
    ensures NextWorker(cfg, s, step).deposits == s.deposits
  {
    hide W.ReleaseHold, W.RecordSubmission, QuoteFromPayout, Unclaimed, AmountText;
  }

  lemma WithdrawalsLeaveDeposits(cfg: Config, s: Sys, step: Step)
    ensures NextWithdrawal(cfg, s, step).deposits == s.deposits
  {
    hide W.PlaceHold, W.ApplyPayoutState, W.ReleaseHold, W.PollManual, W.MarkBroadcast, ApprovedOutcome, W.Reject, Correlated;
  }
}
