/** The two invariants of the money path that everything else rests on: the books are exactly
    the sum of what the rows have done to them, and the workers, rows and payouts agree about
    who may still send. */
module MoneyInvariants {
  import opened Wrappers
  import opened Sums
  import opened Ledger
  import opened Withdrawals
  import opened WithdrawalBooks
  import opened MoneyPath
  import D = Deposits
  import DB = DepositBooks

  // -- the books -------------------------------------------------------------------------

  ghost predicate RowInv(b: Book, w: Withdrawal) {
    RowOk(b, w) && (w.submit.Some? ==> Committed(b, w) >= w.net.value)
  }

  predicate Owns(d: D.Deposit, e: Entry, k: nat) {
    e.ref.PaymentRef? && d.invoice == Some(e.ref.invoice) && D.HasCredit(d, e.ref.payment, k)
  }

  /** Every deposit credit in the journal belongs to a credited payment row. */
  ghost predicate CreditsOwned(s: Sys) {
    forall k :: 0 <= k < |s.book.entries| && s.book.entries[k].kind == DepositCredit ==>
      exists j :: 0 <= j < |s.deposits| && Owns(s.deposits[j], s.book.entries[k], k)
  }

  ghost predicate InvoicesDistinct(deposits: seq<D.Deposit>) {
    forall i, j :: 0 <= i < j < |deposits| && deposits[i].invoice.Some? ==> deposits[i].invoice != deposits[j].invoice
  }

  ghost predicate LedgerInv(s: Sys) {
    && Consistent(s.book)
    && (forall i :: 0 <= i < |s.ws| ==> RowInv(s.book, s.ws[i]))
    && (forall j :: 0 <= j < |s.deposits| ==> D.DepositOk(s.book, s.deposits[j]))
    && InvoicesDistinct(s.deposits)
    && CreditsOwned(s)
  }

  function EffectOf(b: Book, sel: AccountKey -> bool): Withdrawal -> int {
    (w: Withdrawal) => RowEffect(b, w, sel)
  }

  function DepositEffectOf(sel: AccountKey -> bool): D.Deposit -> int {
    (d: D.Deposit) => D.DepositEffect(d, sel)
  }

  /** Whatever accounts are selected, their balances add up to what the withdrawal rows and the
      credited deposits did to them. */
  ghost predicate Books(s: Sys, sel: AccountKey -> bool) {
    SelSum(s.book.accounts, sel) == Sum(s.ws, EffectOf(s.book, sel)) + Sum(s.deposits, DepositEffectOf(sel))
  }

  lemma RowInvStable(b: Book, b': Book, w: Withdrawal)
    requires Consistent(b) && Extends(b, b') && RowInv(b, w)
    ensures RowInv(b', w)
  {
    hide Consistent, Extends, PostedTo;
    RowStable(b, b', w);
  }

  /** Rows that nobody touched keep their effect when the books grow. */
  lemma EffectsStable(b: Book, b': Book, ws: seq<Withdrawal>, sel: AccountKey -> bool)
    requires Consistent(b) && Extends(b, b') && forall i :: 0 <= i < |ws| ==> RowInv(b, ws[i])
    ensures Sum(ws, EffectOf(b', sel)) == Sum(ws, EffectOf(b, sel))
  {
    hide Consistent, Extends, RowEffect, PostedTo;
    forall k | 0 <= k < |ws| ensures EffectOf(b, sel)(ws[k]) == EffectOf(b', sel)(ws[k]) {
      RowStable(b, b', ws[k]);
    }
    SumSame(ws, EffectOf(b, sel), EffectOf(b', sel));
  }

  lemma OwnedStable(s: Sys, s': Sys)
    requires CreditsOwned(s) && s'.deposits == s.deposits
    requires s.book.entries <= s'.book.entries && NoDepositCredits(s.book, s'.book)
    ensures CreditsOwned(s')
  {
    forall k | 0 <= k < |s'.book.entries| && s'.book.entries[k].kind == DepositCredit
      ensures exists j :: 0 <= j < |s'.deposits| && Owns(s'.deposits[j], s'.book.entries[k], k)
    {
      assert s'.book.entries[k] == s.book.entries[k];
    }
  }

  lemma DepositsStable(s: Sys, b': Book)
    requires Consistent(s.book) && Extends(s.book, b')
    requires forall j :: 0 <= j < |s.deposits| ==> D.DepositOk(s.book, s.deposits[j])
    ensures forall j :: 0 <= j < |s.deposits| ==> D.DepositOk(b', s.deposits[j])
  {
    hide Consistent, Extends, D.DepositOk;
    forall j | 0 <= j < |s.deposits| ensures D.DepositOk(b', s.deposits[j]) {
      DB.DepositStable(s.book, b', s.deposits[j]);
    }
  }

  /** One row moved, everything else stayed. */
  lemma RowStep(s: Sys, i: nat, b': Book, w': Withdrawal, sel: AccountKey -> bool)
    requires LedgerInv(s) && i < |s.ws| && Accounted(s.book, s.ws[i], b', w', sel)
    requires w'.submit.Some? ==> Committed(b', w') >= w'.net.value
    ensures LedgerInv(WithRow(s, i, b', w'))
    ensures Books(s, sel) ==> Books(WithRow(s, i, b', w'), sel)
  {
    hide Consistent, D.DepositOk, PostedTo, RowEffect, CreditsOwned, InvoicesDistinct, RowOk, NoDepositCredits;
    var s' := WithRow(s, i, b', w');
    EffectsStable(s.book, b', s.ws, sel);
    SumUpdate(s.ws, i, w', EffectOf(b', sel));
    assert EffectOf(b', sel)(s.ws[i]) == RowEffect(s.book, s.ws[i], sel) by {
      RowStableAt(s.book, b', s.ws[i], sel);
    }
    OwnedStable(s, s');
    DepositsStable(s, b');
    forall k | 0 <= k < |s'.ws| ensures RowInv(b', s'.ws[k]) {
      if k != i {
        RowInvStable(s.book, b', s.ws[k]);
      }
    }
  }

  lemma RowStableAt(b: Book, b': Book, w: Withdrawal, sel: AccountKey -> bool)
    requires Consistent(b) && Extends(b, b') && RowInv(b, w)
    ensures RowEffect(b', w, sel) == RowEffect(b, w, sel)
  {
    hide Consistent, Extends, RowEffect, PostedTo;
    RowStable(b, b', w);
  }

  /** A new row arrived with its hold. */
  lemma HoldStep(s: Sys, b': Book, w: Withdrawal, sel: AccountKey -> bool)
    requires LedgerInv(s) && Consistent(b') && Extends(s.book, b') && NoDepositCredits(s.book, b') && RowInv(b', w)
    requires SelSum(b'.accounts, sel) - SelSum(s.book.accounts, sel) == RowEffect(b', w, sel)
    ensures LedgerInv(s.(book := b', ws := s.ws + [w]))
    ensures Books(s, sel) ==> Books(s.(book := b', ws := s.ws + [w]), sel)
  {
    hide Consistent, D.DepositOk, PostedTo, RowEffect, CreditsOwned, InvoicesDistinct, RowOk, NoDepositCredits;
    var s' := s.(book := b', ws := s.ws + [w]);
    EffectsStable(s.book, b', s.ws, sel);
    SumAppend(s.ws, w, EffectOf(b', sel));
    OwnedStable(s, s');
    DepositsStable(s, b');
    forall k | 0 <= k < |s'.ws| ensures RowInv(b', s'.ws[k]) {
      if k < |s.ws| {
        RowInvStable(s.book, b', s.ws[k]);
      }
    }
  }

  // -- deposits --------------------------------------------------------------------------------

  /** The credits of an invoice are known to the deposit that holds it, or to the one about to. */
  lemma CreditsAreKnown(s: Sys, j: nat, invoice: string)
    requires CreditsOwned(s) && InvoicesDistinct(s.deposits) && j < |s.deposits|
    requires s.deposits[j].invoice == Some(invoice) || InvoiceFree(s.deposits, j, invoice)
    requires s.deposits[j].invoice.Some? ==> s.deposits[j].invoice.value == invoice
    ensures D.CreditsKnown(s.book, s.deposits[j], invoice)
  {
    forall k | 0 <= k < |s.book.entries| && D.IsCreditOf(s.book.entries[k], invoice)
      ensures D.HasCredit(s.deposits[j], s.book.entries[k].ref.payment, k)
    {
      var o :| 0 <= o < |s.deposits| && Owns(s.deposits[o], s.book.entries[k], k);
      assert s.deposits[o].invoice == Some(invoice);
    }
  }

  /** One deposit moved, on its own invoice. */
  lemma DepositStep(s: Sys, j: nat, b': Book, d': D.Deposit, invoice: string, sel: AccountKey -> bool)
    requires LedgerInv(s) && j < |s.deposits| && Consistent(b') && Extends(s.book, b')
    requires D.DepositOk(b', d') && D.CreditsKnown(b', d', invoice) && DB.OnlyCredits(s.book, b', invoice)
    requires d'.invoice == Some(invoice) && InvoiceFree(s.deposits, j, invoice)
    requires s.deposits[j].invoice.Some? ==> s.deposits[j].invoice.value == invoice
    requires SelSum(b'.accounts, sel) - SelSum(s.book.accounts, sel)
          == D.DepositEffect(d', sel) - D.DepositEffect(s.deposits[j], sel)
    ensures LedgerInv(s.(book := b', deposits := s.deposits[j := d']))
    ensures Books(s, sel) ==> Books(s.(book := b', deposits := s.deposits[j := d']), sel)
  {
    hide Consistent, D.DepositOk, PostedTo, RowEffect, RowOk, D.DepositEffect;
    var s' := s.(book := b', deposits := s.deposits[j := d']);
    EffectsStable(s.book, b', s.ws, sel);
    SumUpdate(s.deposits, j, d', DepositEffectOf(sel));
    DepositsStable(s, b');
    forall k | 0 <= k < |s'.ws| ensures RowInv(b', s'.ws[k]) {
      RowInvStable(s.book, b', s.ws[k]);
    }
    OwnedAfter(s, s', j, invoice);
  }

  lemma OwnedAfter(s: Sys, s': Sys, j: nat, invoice: string)
    requires CreditsOwned(s) && j < |s.deposits| && |s'.deposits| == |s.deposits|
    requires s'.deposits == s.deposits[j := s'.deposits[j]] && s.book.entries <= s'.book.entries
    requires D.CreditsKnown(s'.book, s'.deposits[j], invoice) && DB.OnlyCredits(s.book, s'.book, invoice)
    requires s'.deposits[j].invoice == Some(invoice)
    requires s.deposits[j].invoice.Some? ==> s.deposits[j].invoice.value == invoice
    ensures CreditsOwned(s')
  {
    forall k | 0 <= k < |s'.book.entries| && s'.book.entries[k].kind == DepositCredit
      ensures exists o :: 0 <= o < |s'.deposits| && Owns(s'.deposits[o], s'.book.entries[k], k)
    {
      var e := s'.book.entries[k];
      if D.IsCreditOf(e, invoice) {
        assert Owns(s'.deposits[j], e, k);
      } else {
        assert e == s.book.entries[k];
        var o :| 0 <= o < |s.deposits| && Owns(s.deposits[o], e, k);
        assert o != j;
        assert Owns(s'.deposits[o], e, k);
      }
    }
  }

  /** A deposit changed without touching the books. */
  lemma QuietDepositStep(s: Sys, j: nat, d': D.Deposit, sel: AccountKey -> bool)
    requires LedgerInv(s) && j < |s.deposits|
    requires d'.rows == s.deposits[j].rows && d'.credited == s.deposits[j].credited
    requires d'.user == s.deposits[j].user && d'.asset == s.deposits[j].asset
    requires d'.invoice == s.deposits[j].invoice
      || (s.deposits[j].invoice.None? && d'.invoice.Some? && InvoiceFree(s.deposits, j, d'.invoice.value))
    ensures LedgerInv(s.(deposits := s.deposits[j := d']))
    ensures Books(s, sel) ==> Books(s.(deposits := s.deposits[j := d']), sel)
  {
    hide Consistent, RowInv, CreditsOwned, D.DepositOk;
    var s' := s.(deposits := s.deposits[j := d']);
    SumUpdate(s.deposits, j, d', DepositEffectOf(sel));
    QuietDepositOk(s.book, s.deposits[j], d');
    QuietCredits(s, s', j);
  }

  lemma QuietDepositOk(b: Book, d: D.Deposit, d': D.Deposit)
    requires D.DepositOk(b, d) && d'.rows == d.rows && d'.credited == d.credited
    requires d'.invoice == d.invoice || d.invoice.None?
    ensures D.DepositOk(b, d')
  {
    hide PostedTo;
    forall i | 0 <= i < |d'.rows| && d'.rows[i].entry.Some? ensures D.RowEntry(b, d', d'.rows[i]) {
      assert D.RowEntry(b, d, d.rows[i]);
    }
  }

  lemma QuietCredits(s: Sys, s': Sys, j: nat)
    requires CreditsOwned(s) && j < |s.deposits| && s'.book == s.book && |s'.deposits| == |s.deposits|
    requires s'.deposits == s.deposits[j := s'.deposits[j]] && s'.deposits[j].rows == s.deposits[j].rows
    requires s'.deposits[j].invoice == s.deposits[j].invoice || s.deposits[j].invoice.None?
    ensures CreditsOwned(s')
  {
    forall k | 0 <= k < |s'.book.entries| && s'.book.entries[k].kind == DepositCredit
      ensures exists o :: 0 <= o < |s'.deposits| && Owns(s'.deposits[o], s'.book.entries[k], k)
    {
      var o :| 0 <= o < |s.deposits| && Owns(s.deposits[o], s.book.entries[k], k);
      assert Owns(s'.deposits[o], s.book.entries[k], k);
    }
  }

  lemma NewDepositStep(s: Sys, d: D.Deposit, sel: AccountKey -> bool)
    requires LedgerInv(s) && d.rows == [] && d.credited == 0 && d.invoice.None?
    ensures LedgerInv(s.(deposits := s.deposits + [d]))
    ensures Books(s, sel) ==> Books(s.(deposits := s.deposits + [d]), sel)
  {
    hide Consistent, PostedTo, RowEffect, RowOk;
    var s' := s.(deposits := s.deposits + [d]);
    SumAppend(s.deposits, d, DepositEffectOf(sel));
    forall k | 0 <= k < |s'.book.entries| && s'.book.entries[k].kind == DepositCredit
      ensures exists o :: 0 <= o < |s'.deposits| && Owns(s'.deposits[o], s'.book.entries[k], k)
    {
      var o :| 0 <= o < |s.deposits| && Owns(s.deposits[o], s.book.entries[k], k);
      assert Owns(s'.deposits[o], s.book.entries[k], k);
    }
  }

  lemma NextDepositKeepsLedger(s: Sys, step: Step, sel: AccountKey -> bool)
    requires LedgerInv(s) && Admissible(s, step)
    ensures LedgerInv(NextDeposit(s, step))
    ensures Books(s, sel) ==> Books(NextDeposit(s, step), sel)
  {
    hide LedgerInv, Books, D.ApplyInvoiceState, D.ResolveReview;
    match step {
      case NewDeposit(user, asset, expected) =>
        NewDepositStep(s, D.Deposit(user, asset, None, expected, 0, D.Creating, []), sel);
      case AttachInvoice(j, seen, invoice) =>
        if j < |s.deposits| && seen.invoice.None? && InvoiceFree(s.deposits, j, invoice) {
          QuietDepositStep(s, j, D.Attach(s.deposits[j], invoice), sel);
        }
      case ApplyInvoice(j, snapshot, terms) =>
        if j < |s.deposits| {
          ApplyInvoiceKeepsLedger(s, j, snapshot, terms, sel);
        }
      case ResolveDeposit(j, action, payments, terms) =>
        if j < |s.deposits| {
          ResolveKeepsLedger(s, j, action, payments, terms, sel);
        }
      case FailDeposit(j, seen) =>
        if j < |s.deposits| && seen.invoice.None? && D.MarkFailed(seen, s.deposits[j]).Success? {
          QuietDepositStep(s, j, D.MarkFailed(seen, s.deposits[j]).value, sel);
        }
      case _ =>
    }
  }

  lemma HeldInvoiceIsFree(s: Sys, j: nat)
    requires InvoicesDistinct(s.deposits) && j < |s.deposits| && s.deposits[j].invoice.Some?
    ensures InvoiceFree(s.deposits, j, s.deposits[j].invoice.value)
  {
  }

  lemma ApplyInvoiceKeepsLedger(s: Sys, j: nat, snapshot: D.Snapshot, terms: D.Terms, sel: AccountKey -> bool)
    requires LedgerInv(s) && j < |s.deposits|
    ensures LedgerInv(NextDeposit(s, ApplyInvoice(j, snapshot, terms)))
    ensures Books(s, sel) ==> Books(NextDeposit(s, ApplyInvoice(j, snapshot, terms)), sel)
  {
    hide Consistent, D.DepositOk, PostedTo, RowEffect, RowOk, D.DepositEffect, CreditsOwned, D.RecordAll, InvoiceFree, Books;
    var free := InvoiceFree(s.deposits, j, snapshot.invoice);
    var d := s.deposits[j];
    var r := D.ApplyInvoiceState(s.book, d, snapshot, terms, free);
    if d.invoice.Some? {
      HeldInvoiceIsFree(s, j);
    }
    if r.Success? {
      if D.Acts(d, snapshot) {
        CreditsAreKnown(s, j, snapshot.invoice);
        DB.ApplyInvoiceStateAccounted(s.book, d, snapshot, terms, free, sel);
        DB.ApplyTakenApart(s.book, d, snapshot, terms, free, sel);
        var (b', d') := r.value;
        DepositStep(s, j, b', d', snapshot.invoice, sel);
      } else {
        assert r.value == (s.book, d);
        assert s.deposits[j := d] == s.deposits;
      }
    }
  }

  lemma ResolveKeepsLedger(s: Sys, j: nat, action: D.Resolution, payments: seq<D.Observed>, terms: D.Terms, sel: AccountKey -> bool)
    requires LedgerInv(s) && j < |s.deposits|
    ensures LedgerInv(NextDeposit(s, ResolveDeposit(j, action, payments, terms)))
    ensures Books(s, sel) ==> Books(NextDeposit(s, ResolveDeposit(j, action, payments, terms)), sel)
  {
    hide Consistent, D.DepositOk, PostedTo, RowEffect, RowOk, D.DepositEffect, CreditsOwned, D.RecordOne, InvoiceFree, Books;
    var d := s.deposits[j];
    var r := D.ResolveReview(s.book, d, action, payments, terms);
    if d.invoice.Some? {
      HeldInvoiceIsFree(s, j);
      CreditsAreKnown(s, j, d.invoice.value);
    }
    if r.Success? {
      DB.ResolveReviewAccounted(s.book, d, action, payments, terms, sel);
      var (b', d') := r.value;
      if action.Dismiss? {
        QuietDepositStep(s, j, d', sel);
      } else {
        DepositStep(s, j, b', d', d.invoice.value, sel);
      }
    }
  }
}
