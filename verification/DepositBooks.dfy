/** What every deposit transition keeps, and what it promises about the payments it saw. */
module DepositBooks {
  import opened Wrappers
  import opened Sums
  import opened Ledger
  import opened Deposits
  import Amounts
  import W = Withdrawals
  import WB = WithdrawalBooks

  /** Books and deposit before and after a transition, seen through a selection of accounts. */
  ghost predicate Accounted(b: Book, d: Deposit, b': Book, d': Deposit, invoice: string, sel: AccountKey -> bool) {
    && Consistent(b') && Extends(b, b') && DepositOk(b', d') && CreditsKnown(b', d', invoice) && Grows(d, d')
    && OnlyCredits(b, b', invoice)
    && SelSum(b'.accounts, sel) - SelSum(b.accounts, sel) == DepositEffect(d', sel) - DepositEffect(d, sel)
  }

  /** Every entry appended is a credit of this invoice. */
  ghost predicate OnlyCredits(b: Book, b': Book, invoice: string) {
    forall k :: |b.entries| <= k < |b'.entries| ==> IsCreditOf(b'.entries[k], invoice)
  }

  lemma {:induction false} FindUnique(rows: seq<PaymentRow>, k: nat)
    requires k < |rows|
    requires forall i, j :: 0 <= i < j < |rows| ==> rows[i].payment != rows[j].payment
    ensures FindRow(rows, rows[k].payment) == Some(k)
  {
  }

  /** Appending a row that has no credit yet. */
  lemma UpsertKeeps(b: Book, d: Deposit, payment: string, units: int, late: bool, invoice: string)
    requires DepositOk(b, d) && CreditsKnown(b, d, invoice) && Upsert(d, payment, units, late).Success?
    ensures var (d', k) := Upsert(d, payment, units, late).value;
      && DepositOk(b, d') && CreditsKnown(b, d', invoice) && Grows(d, d')
      && d' == d.(rows := d'.rows) && k < |d'.rows| && d'.rows[k].payment == payment
  {
    hide Consistent, W.PostedTo, DepositOk, CreditsKnown;
    var (d', k) := Upsert(d, payment, units, late).value;
    if FindRow(d.rows, payment).None? {
      AppendedOk(b, d, d'.rows[|d.rows|], invoice);
    }
  }

  lemma AppendedOk(b: Book, d: Deposit, row: PaymentRow, invoice: string)
    requires DepositOk(b, d) && CreditsKnown(b, d, invoice) && FindRow(d.rows, row.payment).None?
    requires row.amount > 0 && row.entry.None?
    ensures var d' := d.(rows := d.rows + [row]); DepositOk(b, d') && CreditsKnown(b, d', invoice)
  {
    hide Consistent, W.PostedTo;
    var d' := d.(rows := d.rows + [row]);
    SumAppend(d.rows, row, CreditedAmount());
    forall i | 0 <= i < |d'.rows| && d'.rows[i].entry.Some? ensures RowEntry(b, d', d'.rows[i]) {
      assert RowEntry(b, d, d.rows[i]);
    }
    forall e | 0 <= e < |b.entries| && IsCreditOf(b.entries[e], invoice)
      ensures HasCredit(d', b.entries[e].ref.payment, e)
    {
      assert HasCredit(d, b.entries[e].ref.payment, e);
      FindUnique(d'.rows, FindRow(d.rows, b.entries[e].ref.payment).value);
    }
  }

  lemma RowEntryStable(b: Book, b': Book, d: Deposit, d': Deposit, row: PaymentRow)
    requires Consistent(b) && Extends(b, b') && RowEntry(b, d, row) && d'.invoice == d.invoice
    ensures RowEntry(b', d', row)
  {
    WB.PostedToStable(b, b', row.entry, HotWallet);
  }

  /** Whatever else is appended to the books, a deposit stays sound. */
  lemma DepositStable(b: Book, b': Book, d: Deposit)
    requires Consistent(b) && Extends(b, b') && DepositOk(b, d)
    ensures DepositOk(b', d)
  {
    hide Consistent, Extends, W.PostedTo;
    forall i | 0 <= i < |d.rows| && d.rows[i].entry.Some? ensures RowEntry(b', d, d.rows[i]) {
      RowEntryStable(b, b', d, d, d.rows[i]);
    }
  }

  /** The books after crediting, and that the payment had not been posted before. */
  lemma CreditPosts(b: Book, d: Deposit, k: nat, invoice: string, actor: string, sel: AccountKey -> bool)
    requires Consistent(b) && DepositOk(b, d) && CreditsKnown(b, d, invoice) && d.invoice == Some(invoice)
    requires k < |d.rows| && d.rows[k].entry.None?
    requires Credit(b, d, k, invoice, actor).Success?
    ensures var (b', d') := Credit(b, d, k, invoice, actor).value;
      && Consistent(b') && Extends(b, b') && |b'.entries| == |b.entries| + 1
      && d' == WithCredit(d, k, |b.entries|, actor)
      && b'.entries[|b.entries|].kind == DepositCredit
      && b'.entries[|b.entries|].ref == PaymentRef(invoice, d.rows[k].payment)
      && W.PostedTo(b', Some(|b.entries|), HotWallet) == d.rows[k].amount
      && SelSum(b'.accounts, sel) - SelSum(b.accounts, sel) == DepositEffect(d', sel) - DepositEffect(d, sel)
  {
    hide Consistent, Extends, W.PostedTo, W.UserAccounts;
    var row := d.rows[k];
    var hot := W.SystemAccount(b, d.asset, HotWallet).value;
    var (b1, available, _) := W.UserAccounts(b, d.asset, d.user);
    WB.UserAccountsStep(b, d.asset, d.user, sel);
    assert hot < |b1.accounts| && b1.accounts[hot].key == b.accounts[hot].key by {
      ExtendsKeys(b, b1, hot);
    }
    var e := CreditEntry(d, row, invoice, hot, available);
    var (b', d') := Credit(b, d, k, invoice, actor).value;
    NotPostedYet(b, d, k, invoice);
    assert FindEntry(b1.entries, e.kind, e.ref).None?;
    assert Post(b1, e).Success?;
    assert W.PostFor(b1, e) == Success(b');
    WB.PairStep(b1, e, e.postings[0], e.postings[1], sel);
    WB.ExtendsTransitive(b, b1, b');
  }

  lemma ExtendsKeys(b: Book, b': Book, id: nat)
    requires Extends(b, b') && id < |b.accounts|
    ensures id < |b'.accounts| && b'.accounts[id].key == b.accounts[id].key
  {
  }

  lemma NotPostedYet(b: Book, d: Deposit, k: nat, invoice: string)
    requires DepositOk(b, d) && CreditsKnown(b, d, invoice)
    requires k < |d.rows| && d.rows[k].entry.None?
    ensures FindEntry(b.entries, DepositCredit, PaymentRef(invoice, d.rows[k].payment)).None?
  {
    hide W.PostedTo;
    var found := FindEntry(b.entries, DepositCredit, PaymentRef(invoice, d.rows[k].payment));
    if found.Some? {
      assert IsCreditOf(b.entries[found.value], invoice);
      assert HasCredit(d, d.rows[k].payment, found.value);
      FindUnique(d.rows, k);
    }
  }

  lemma CreditAccounted(b: Book, d: Deposit, k: nat, invoice: string, actor: string, sel: AccountKey -> bool)
    requires Consistent(b) && DepositOk(b, d) && CreditsKnown(b, d, invoice) && d.invoice == Some(invoice)
    requires k < |d.rows| && d.rows[k].entry.None?
    requires Credit(b, d, k, invoice, actor).Success?
    ensures var (b', d') := Credit(b, d, k, invoice, actor).value;
      && Accounted(b, d, b', d', invoice, sel) && d' == d.(rows := d'.rows, credited := d'.credited)
      && |d'.rows| == |d.rows| && d'.rows[k].entry.Some?
  {
    hide Consistent, W.PostedTo, Credit, DepositEffect, DepositOk, CreditsKnown;
    CreditPosts(b, d, k, invoice, actor, sel);
    var (b', d') := Credit(b, d, k, invoice, actor).value;
    CreditedOk(b, d, b', k, actor, invoice);
    CreditedKnown(b, d, b', k, actor, invoice);
  }

  lemma CreditedOk(b: Book, d: Deposit, b': Book, k: nat, actor: string, invoice: string)
    requires Consistent(b) && DepositOk(b, d) && d.invoice == Some(invoice) && Extends(b, b')
    requires k < |d.rows| && d.rows[k].entry.None? && |b'.entries| == |b.entries| + 1
    requires b'.entries[|b.entries|].kind == DepositCredit && b'.entries[|b.entries|].ref == PaymentRef(invoice, d.rows[k].payment)
    requires W.PostedTo(b', Some(|b.entries|), HotWallet) == d.rows[k].amount
    ensures DepositOk(b', WithCredit(d, k, |b.entries|, actor))
  {
    hide Consistent, Extends, W.PostedTo;
    var d' := WithCredit(d, k, |b.entries|, actor);
    SumUpdate(d.rows, k, d'.rows[k], CreditedAmount());
    forall i | 0 <= i < |d'.rows| && d'.rows[i].entry.Some? ensures RowEntry(b', d', d'.rows[i]) {
      if i != k {
        RowEntryStable(b, b', d, d', d.rows[i]);
      }
    }
  }

  lemma CreditedKnown(b: Book, d: Deposit, b': Book, k: nat, actor: string, invoice: string)
    requires DepositOk(b, d) && CreditsKnown(b, d, invoice) && Extends(b, b')
    requires k < |d.rows| && d.rows[k].entry.None? && |b'.entries| == |b.entries| + 1
    requires b'.entries[|b.entries|].kind == DepositCredit && b'.entries[|b.entries|].ref == PaymentRef(invoice, d.rows[k].payment)
    ensures CreditsKnown(b', WithCredit(d, k, |b.entries|, actor), invoice)
  {
    hide W.PostedTo, RowEntry;
    var d' := WithCredit(d, k, |b.entries|, actor);
    forall e | 0 <= e < |b'.entries| && IsCreditOf(b'.entries[e], invoice)
      ensures HasCredit(d', b'.entries[e].ref.payment, e)
    {
      FindUnique(d'.rows, k);
      if e < |b.entries| {
        assert b'.entries[e] == b.entries[e];
        assert HasCredit(d, b.entries[e].ref.payment, e);
        FindUnique(d'.rows, FindRow(d.rows, b.entries[e].ref.payment).value);
      }
    }
  }

  /** What recording one payment leaves behind: a row for it, credited when that was due. */
  ghost predicate Recorded(d: Deposit, payment: string, credited: bool) {
    var r := FindRow(d.rows, payment);
    r.Some? && (credited ==> d.rows[r.value].entry.Some?)
  }

  lemma RecordOneAccounted(b: Book, d: Deposit, p: Parsed, invoice: string, creditable: bool, late: bool, actor: string,
                           sel: AccountKey -> bool)
    requires Consistent(b) && DepositOk(b, d) && CreditsKnown(b, d, invoice) && d.invoice == Some(invoice)
    requires RecordOne(b, d, p, invoice, creditable, late, actor).Success?
    ensures var (b', d') := RecordOne(b, d, p, invoice, creditable, late, actor).value;
      && Accounted(b, d, b', d', invoice, sel) && d'.status == d.status && d'.invoice == d.invoice
      && Recorded(d', p.payment, creditable && p.settled) && p.units > 0
      && (!creditable ==> d'.credited == d.credited && b' == b)
  {
    hide Consistent, Extends, W.PostedTo, Credit, Upsert;
    UpsertKeeps(b, d, p.payment, p.units, late, invoice);
    var (d1, k) := Upsert(d, p.payment, p.units, late).value;
    UpsertNeedsPositive(d, p.payment, p.units, late);
    FindUnique(d1.rows, k);
    WB.ExtendsSelf(b);
    var (b', d') := RecordOne(b, d, p, invoice, creditable, late, actor).value;
    if creditable && p.settled && d1.rows[k].entry.None? {
      CreditAccounted(b, d1, k, invoice, actor, sel);
      FindUnique(d'.rows, k);
    }
  }

  lemma UpsertNeedsPositive(d: Deposit, payment: string, units: int, late: bool)
    requires Upsert(d, payment, units, late).Success?
    ensures units > 0
  {
  }

  lemma RecordedStays(d: Deposit, d': Deposit, payment: string, credited: bool)
    requires Grows(d, d') && Recorded(d, payment, credited)
    requires forall i, j :: 0 <= i < j < |d'.rows| ==> d'.rows[i].payment != d'.rows[j].payment
    ensures Recorded(d', payment, credited)
  {
    FindUnique(d'.rows, FindRow(d.rows, payment).value);
  }

  lemma GrowsTransitive(a: Deposit, b: Deposit, c: Deposit)
    requires Grows(a, b) && Grows(b, c)
    ensures Grows(a, c)
  {
  }

  lemma OnlyCreditsTransitive(a: Book, b: Book, c: Book, invoice: string)
    requires OnlyCredits(a, b, invoice) && OnlyCredits(b, c, invoice) && Extends(b, c)
    ensures OnlyCredits(a, c, invoice)
  {
    forall k | |a.entries| <= k < |c.entries| ensures IsCreditOf(c.entries[k], invoice) {
      if k < |b.entries| {
        assert c.entries[k] == b.entries[k];
      }
    }
  }

  lemma {:induction false} RecordAllAccounted(b: Book, d: Deposit, parsed: seq<Parsed>, invoice: string, creditable: bool,
                                              late: bool, actor: string, sel: AccountKey -> bool)
    requires Consistent(b) && DepositOk(b, d) && CreditsKnown(b, d, invoice) && d.invoice == Some(invoice)
    requires RecordAll(b, d, parsed, invoice, creditable, late, actor).Success?
    ensures var (b', d') := RecordAll(b, d, parsed, invoice, creditable, late, actor).value;
      && Accounted(b, d, b', d', invoice, sel) && d'.status == d.status && d'.invoice == d.invoice
      && (forall k :: 0 <= k < |parsed| ==> Recorded(d', parsed[k].payment, creditable && parsed[k].settled) && parsed[k].units > 0)
      && (!creditable ==> d'.credited == d.credited && b' == b)
  {
    hide Consistent, Extends, W.PostedTo, RecordOne, DepositEffect, CreditsKnown, DepositOk, Recorded, Grows;
    if parsed == [] {
      WB.ExtendsSelf(b);
      GrowsSelf(d);
    } else {
      var n := |parsed| - 1;
      RecordAllAccounted(b, d, parsed[..n], invoice, creditable, late, actor, sel);
      var (b1, d1) := RecordAll(b, d, parsed[..n], invoice, creditable, late, actor).value;
      RecordOneAccounted(b1, d1, parsed[n], invoice, creditable, late, actor, sel);
      var (b', d') := RecordOne(b1, d1, parsed[n], invoice, creditable, late, actor).value;
      WB.ExtendsTransitive(b, b1, b');
      GrowsTransitive(d, d1, d');
      OnlyCreditsTransitive(b, b1, b', invoice);
      forall k | 0 <= k < |parsed|
        ensures Recorded(d', parsed[k].payment, creditable && parsed[k].settled) && parsed[k].units > 0
      {
        if k < n {
          assert parsed[..n][k] == parsed[k];
          RecordedLater(b', d1, d', parsed[k].payment, creditable && parsed[k].settled);
        }
      }
    }
  }

  lemma GrowsSelf(d: Deposit)
    ensures Grows(d, d)
  {
  }

  lemma RecordedLater(b: Book, d: Deposit, d': Deposit, payment: string, credited: bool)
    requires Grows(d, d') && Recorded(d, payment, credited) && DepositOk(b, d')
    ensures Recorded(d', payment, credited)
  {
    hide Grows, Recorded, RowEntry;
    RecordedStays(d, d', payment, credited);
  }

  // -- the transition function -----------------------------------------------------------

  function Attached(d: Deposit, s: Snapshot): Deposit {
    if d.invoice.None? then Attach(d, s.invoice) else d
  }

  lemma AttachKeeps(b: Book, d: Deposit, s: Snapshot)
    requires DepositOk(b, d) && CreditsKnown(b, d, s.invoice)
    requires d.invoice.Some? ==> d.invoice.value == s.invoice
    ensures var d1 := Attached(d, s);
      DepositOk(b, d1) && CreditsKnown(b, d1, s.invoice) && Grows(d, d1) && d1.invoice == Some(s.invoice)
      && d1.credited == d.credited && d1.rows == d.rows && (d1.status == d.status || (d.status == Creating && d1.status == Pending))
  {
    hide W.PostedTo;
    var d1 := Attached(d, s);
    forall i | 0 <= i < |d1.rows| && d1.rows[i].entry.Some? ensures RowEntry(b, d1, d1.rows[i]) {
      assert RowEntry(b, d, d.rows[i]);
    }
  }

  /** A successful step that acts, taken apart. */
  lemma ApplyTakenApart(b: Book, d: Deposit, s: Snapshot, terms: Terms, free: bool, sel: AccountKey -> bool)
    requires Consistent(b) && DepositOk(b, d) && CreditsKnown(b, d, s.invoice) && Acts(d, s)
    requires ApplyInvoiceState(b, d, s, terms, free).Success?
    ensures var d1 := Attached(d, s);
      var recorded := RecordAll(b, d1, Reading(s, terms), s.invoice, Creditable(d1, Target(d1.expected, s, terms)),
                                s.additional == PaidLate, terms.actor);
      && d1.invoice == Some(s.invoice) && recorded.Success?
      && ApplyInvoiceState(b, d, s, terms, free).value == (recorded.value.0, MoveStatus(recorded.value.1, Target(d1.expected, s, terms)))
      && Accounted(b, d1, recorded.value.0, recorded.value.1, s.invoice, sel)
      && recorded.value.1.status == d1.status && recorded.value.1.invoice == d1.invoice
      && (forall k :: 0 <= k < |Reading(s, terms)| ==>
            Recorded(recorded.value.1, Reading(s, terms)[k].payment,
                     Creditable(d1, Target(d1.expected, s, terms)) && Reading(s, terms)[k].settled) && Reading(s, terms)[k].units > 0)
      && (!Creditable(d1, Target(d1.expected, s, terms)) ==> recorded.value.1.credited == d1.credited && recorded.value.0 == b)
  {
    hide Consistent, Extends, W.PostedTo, RecordAll, DepositEffect, CreditsKnown, DepositOk, Target, Reading, MoveStatus;
    AttachKeeps(b, d, s);
    var d1 := Attached(d, s);
    RecordAllAccounted(b, d1, Reading(s, terms), s.invoice, Creditable(d1, Target(d1.expected, s, terms)),
                       s.additional == PaidLate, terms.actor, sel);
  }

  lemma StatusMoveKeeps(b: Book, d: Deposit, d': Deposit, invoice: string)
    requires DepositOk(b, d) && CreditsKnown(b, d, invoice) && d' == d.(status := d'.status)
    ensures DepositOk(b, d') && CreditsKnown(b, d', invoice) && Grows(d, d')
    ensures forall sel :: DepositEffect(d', sel) == DepositEffect(d, sel)
  {
    hide W.PostedTo;
    forall i | 0 <= i < |d'.rows| && d'.rows[i].entry.Some? ensures RowEntry(b, d', d'.rows[i]) {
      assert RowEntry(b, d, d.rows[i]);
    }
  }

  /** Any snapshot, however stale, moves the books by exactly the change in the deposit's
      credited total, and leaves every recorded amount and credit as it was. */
  lemma ApplyInvoiceStateAccounted(b: Book, d: Deposit, s: Snapshot, terms: Terms, free: bool, sel: AccountKey -> bool)
    requires Consistent(b) && DepositOk(b, d) && CreditsKnown(b, d, s.invoice)
    requires ApplyInvoiceState(b, d, s, terms, free).Success?
    ensures var (b', d') := ApplyInvoiceState(b, d, s, terms, free).value;
      Accounted(b, d, b', d', s.invoice, sel)
  {
    hide Consistent, Extends, W.PostedTo, RecordAll, CreditsKnown, DepositOk, Target, Reading, DepositEffect;
    if Acts(d, s) {
      ApplyTakenApart(b, d, s, terms, free, sel);
      AttachKeeps(b, d, s);
      var d1 := Attached(d, s);
      var (b', d') := ApplyInvoiceState(b, d, s, terms, free).value;
      var d2 := RecordAll(b, d1, Reading(s, terms), s.invoice, Creditable(d1, Target(d1.expected, s, terms)),
                          s.additional == PaidLate, terms.actor).value.1;
      StatusMoveKeeps(b', d2, d', s.invoice);
      GrowsTransitive(d1, d2, d');
      GrowsTransitive(d, d1, d');
      SameCredited(d, d1, sel);
    } else {
      WB.ExtendsSelf(b);
    }
  }

  lemma SameCredited(d: Deposit, d': Deposit, sel: AccountKey -> bool)
    requires d'.user == d.user && d'.asset == d.asset && d'.credited == d.credited
    ensures DepositEffect(d', sel) == DepositEffect(d, sel)
  {
  }

  /** Review is sticky: a snapshot may record what it saw, but it neither credits nor leaves. */
  lemma AutomationNeverLeavesReview(b: Book, d: Deposit, s: Snapshot, terms: Terms, free: bool)
    requires Consistent(b) && DepositOk(b, d) && CreditsKnown(b, d, s.invoice) && d.status == Review
    requires ApplyInvoiceState(b, d, s, terms, free).Success?
    ensures var (b', d') := ApplyInvoiceState(b, d, s, terms, free).value;
      b' == b && d'.status == Review && d'.credited == d.credited
  {
    hide Consistent, Extends, W.PostedTo, RecordAll, CreditsKnown, DepositOk, Target, Reading;
    if Acts(d, s) {
      ApplyTakenApart(b, d, s, terms, free, _ => true);
    }
  }

  predicate Final(s: Snapshot) {
    s.status == InvoiceSettled || s.status == InvoiceExpired || s.status == Invalid
  }

  /** What is left of a final snapshot is either fully credited or in front of a human. */
  lemma NoSilentDrop(b: Book, d: Deposit, s: Snapshot, terms: Terms, free: bool)
    requires Consistent(b) && DepositOk(b, d) && CreditsKnown(b, d, s.invoice)
    requires Final(s) && !Terminal(d.status) && ApplyInvoiceState(b, d, s, terms, free).Success?
    ensures var d' := ApplyInvoiceState(b, d, s, terms, free).value.1;
      forall k :: 0 <= k < |Reading(s, terms)| ==>
        Recorded(d', Reading(s, terms)[k].payment, Reading(s, terms)[k].settled && d'.status != Review)
  {
    hide Consistent, Extends, W.PostedTo, RecordAll, CreditsKnown, DepositOk, DepositEffect, Reading, Target, ApplyInvoiceState;
    ApplyTakenApart(b, d, s, terms, free, _ => true);
    var d1 := Attached(d, s);
    var target := Target(d1.expected, s, terms);
    var d2 := RecordAll(b, d1, Reading(s, terms), s.invoice, Creditable(d1, target), s.additional == PaidLate, terms.actor).value.1;
    var d' := ApplyInvoiceState(b, d, s, terms, free).value.1;
    assert d'.rows == d2.rows;
    if d'.status != Review && Reading(s, terms) != [] {
      ReadingIsDecisive(d1.expected, s, terms);
      assert Creditable(d1, target) || AllCredited(d2);
    }
  }

  /** A final snapshot with readable payments wants the deposit settled or in review. */
  lemma ReadingIsDecisive(expected: Option<int>, s: Snapshot, terms: Terms)
    requires Final(s) && Reading(s, terms) != []
    ensures Target(expected, s, terms) == Settled || Target(expected, s, terms) == Review
  {
    hide BreachesPooledTolerance, Unparseable;
    ReadingNeedsPayments(s, terms);
  }

  lemma ReadingNeedsPayments(s: Snapshot, terms: Terms)
    ensures Reading(s, terms) != [] ==> Considered(s.payments) != []
  {
  }

  // -- replay ------------------------------------------------------------------------------

  /** Recording again what is already recorded changes nothing. */
  lemma {:induction false} RecordAllAgain(b: Book, d: Deposit, parsed: seq<Parsed>, invoice: string, creditable: bool, late: bool, actor: string)
    requires forall k :: 0 <= k < |parsed| ==> Recorded(d, parsed[k].payment, creditable && parsed[k].settled) && parsed[k].units > 0
    ensures RecordAll(b, d, parsed, invoice, creditable, late, actor) == Success((b, d))
  {
    if parsed != [] {
      var n := |parsed| - 1;
      RecordAllAgain(b, d, parsed[..n], invoice, creditable, late, actor);
    }
  }

  /** Applying a final snapshot again changes no row, credit, status or entry. */
  lemma ReplayChangesNothing(b: Book, d: Deposit, s: Snapshot, terms: Terms, free: bool)
    requires Consistent(b) && DepositOk(b, d) && CreditsKnown(b, d, s.invoice)
    requires Final(s) && !Terminal(d.status) && ApplyInvoiceState(b, d, s, terms, free).Success?
    ensures var (b', d') := ApplyInvoiceState(b, d, s, terms, free).value;
      ApplyInvoiceState(b', d', s, terms, free) == Success((b', d'))
  {
    hide Consistent, Extends, W.PostedTo, RecordAll, CreditsKnown, DepositOk, DepositEffect, Reading, BreachesPooledTolerance, Target;
    ApplyTakenApart(b, d, s, terms, free, _ => true);
    var d1 := Attached(d, s);
    var target := Target(d1.expected, s, terms);
    var d2 := RecordAll(b, d1, Reading(s, terms), s.invoice, Creditable(d1, target), s.additional == PaidLate, terms.actor).value.1;
    var (b', d') := ApplyInvoiceState(b, d, s, terms, free).value;
    FinalTargets(d1.expected, s, terms);
    assert d'.rows == d2.rows && d'.invoice == Some(s.invoice);
    assert Creditable(d', target) ==> Creditable(d1, target);
    RecordAllAgain(b', d', Reading(s, terms), s.invoice, Creditable(d', target), s.additional == PaidLate, terms.actor);
    assert MoveStatus(d', target) == d';
  }

  lemma FinalTargets(expected: Option<int>, s: Snapshot, terms: Terms)
    requires Final(s)
    ensures Target(expected, s, terms) in {Settled, Review, Expired}
  {
    hide BreachesPooledTolerance, Unparseable, Considered, Reading;
  }

  // -- the admin ------------------------------------------------------------------------------

  /** The admin moves the books by at most the one payment named, at the amount first recorded. */
  lemma ResolveReviewAccounted(b: Book, d: Deposit, action: Resolution, payments: seq<Observed>, terms: Terms, sel: AccountKey -> bool)
    requires Consistent(b) && DepositOk(b, d) && (d.invoice.Some? ==> CreditsKnown(b, d, d.invoice.value))
    requires ResolveReview(b, d, action, payments, terms).Success?
    ensures var (b', d') := ResolveReview(b, d, action, payments, terms).value;
      && Consistent(b') && Extends(b, b') && DepositOk(b', d') && Grows(d, d') && d'.invoice == d.invoice
      && (d.invoice.Some? ==> CreditsKnown(b', d', d.invoice.value) && OnlyCredits(b, b', d.invoice.value))
      && (d.invoice.None? ==> b' == b)
      && SelSum(b'.accounts, sel) - SelSum(b.accounts, sel) == DepositEffect(d', sel) - DepositEffect(d, sel)
      && (action.Dismiss? ==> d'.status == Dismissed && b' == b && d'.rows == d.rows)
      && (action.CreditPayment? ==> d'.status == Settled && Recorded(d', action.payment, true))
  {
    hide Consistent, Extends, W.PostedTo, RecordOne, CreditsKnown, DepositOk, DepositEffect;
    var (b', d') := ResolveReview(b, d, action, payments, terms).value;
    match action {
      case Dismiss =>
        WB.ExtendsSelf(b);
        DismissKeeps(b, d, d');
      case CreditPayment(payment) =>
        var p := Parsed(payment, Amounts.ToUnits(FindObserved(payments, payment).value.value, terms.decimals).value, true);
        RecordOneAccounted(b, d, p, d.invoice.value, true, true, terms.actor, sel);
        var d1 := RecordOne(b, d, p, d.invoice.value, true, true, terms.actor).value.1;
        StatusMoveKeeps(b', d1, d', d.invoice.value);
        GrowsTransitive(d, d1, d');
    }
  }

  lemma DismissKeeps(b: Book, d: Deposit, d': Deposit)
    requires DepositOk(b, d) && d' == d.(status := d'.status)
    ensures DepositOk(b, d') && Grows(d, d') && (d.invoice.Some? && CreditsKnown(b, d, d.invoice.value) ==> CreditsKnown(b, d', d.invoice.value))
    ensures forall sel :: DepositEffect(d', sel) == DepositEffect(d, sel)
  {
    hide W.PostedTo;
    forall i | 0 <= i < |d'.rows| && d'.rows[i].entry.Some? ensures RowEntry(b, d', d'.rows[i]) {
      assert RowEntry(b, d, d.rows[i]);
    }
  }

  // -- when a snapshot is refused --------------------------------------------------------------

  predicate HasHotWallet(b: Book, asset: string) {
    Find(b.accounts, W.SystemKey(asset, HotWallet)).Some?
  }

  lemma HotWalletStays(b: Book, b': Book, asset: string)
    requires Extends(b, b') && HasHotWallet(b, asset)
    ensures HasHotWallet(b', asset)
  {
    var id := Find(b.accounts, W.SystemKey(asset, HotWallet)).value;
    assert b'.accounts[id].key == W.SystemKey(asset, HotWallet);
  }

  /** A credit of a positive amount is never refused: both sides of it grow. */
  lemma CreditSucceeds(b: Book, d: Deposit, k: nat, invoice: string, actor: string)
    requires Consistent(b) && HasHotWallet(b, d.asset) && k < |d.rows| && d.rows[k].amount > 0
    ensures Credit(b, d, k, invoice, actor).Success?
  {
    hide Consistent, Extends, SignOk, W.UserAccounts, Derived, Delta, Total, FindEntry;
    var hot := W.SystemAccount(b, d.asset, HotWallet).value;
    var (b1, available, _) := W.UserAccounts(b, d.asset, d.user);
    WB.UserAccountsStep(b, d.asset, d.user, _ => true);
    ExtendsKeys(b, b1, hot);
    var e := CreditEntry(d, d.rows[k], invoice, hot, available);
    PairTotal(e.postings[0], e.postings[1]);
    forall i | 0 <= i < |b1.accounts| && Delta(e.postings, i) != 0
      ensures SignOk(b1.accounts[i].key.kind, b1.accounts[i].balance + Delta(e.postings, i))
    {
      PairDelta(e.postings[0], e.postings[1], i);
      CreditSign(b1, i, hot, available, d.rows[k].amount, Delta(e.postings, i));
    }
    assert forall p :: p in e.postings ==> p == e.postings[0] || p == e.postings[1];
  }

  lemma PairTotal(p: Posting, q: Posting)
    ensures Total([p, q]) == p.amount + q.amount
  {
    SumAppend([], p, Amount());
    SumAppend([p], q, Amount());
    assert [] + [p] == [p] && [p] + [q] == [p, q];
  }

  lemma PairDelta(p: Posting, q: Posting, id: int)
    ensures Delta([p, q], id) == AmountFor(id)(p) + AmountFor(id)(q)
  {
    SumAppend([], p, AmountFor(id));
    SumAppend([p], q, AmountFor(id));
    assert [] + [p] == [p] && [p] + [q] == [p, q];
  }

  lemma CreditSign(b: Book, i: nat, hot: nat, available: nat, amount: int, delta: int)
    requires Consistent(b) && i < |b.accounts| && hot < |b.accounts| && available < |b.accounts| && amount > 0
    requires b.accounts[hot].key.kind == HotWallet && b.accounts[available].key.kind == UserAvailable
    requires delta != 0 && delta == (if hot == i then amount else 0) + (if available == i then -amount else 0)
    ensures SignOk(b.accounts[i].key.kind, b.accounts[i].balance + delta)
  {
  }

  lemma RecordOneSucceeds(b: Book, d: Deposit, p: Parsed, invoice: string, creditable: bool, late: bool, actor: string)
    requires Consistent(b) && DepositOk(b, d) && HasHotWallet(b, d.asset) && p.units > 0
    ensures RecordOne(b, d, p, invoice, creditable, late, actor).Success?
  {
    hide Consistent, Credit, W.PostedTo;
    var (d1, k) := Upsert(d, p.payment, p.units, late).value;
    CreditSucceeds(b, d1, k, invoice, actor);
  }

  lemma {:induction false} RecordAllSucceeds(b: Book, d: Deposit, parsed: seq<Parsed>, invoice: string, creditable: bool, late: bool, actor: string)
    requires Consistent(b) && DepositOk(b, d) && CreditsKnown(b, d, invoice) && d.invoice == Some(invoice) && HasHotWallet(b, d.asset)
    requires forall k :: 0 <= k < |parsed| ==> parsed[k].units > 0
    ensures RecordAll(b, d, parsed, invoice, creditable, late, actor).Success?
  {
    hide Consistent, DepositOk, CreditsKnown, RecordOne, HasHotWallet, Extends, DepositEffect;
    if parsed != [] {
      var n := |parsed| - 1;
      RecordAllSucceeds(b, d, parsed[..n], invoice, creditable, late, actor);
      RecordAllAccounted(b, d, parsed[..n], invoice, creditable, late, actor, _ => true);
      var (b1, d1) := RecordAll(b, d, parsed[..n], invoice, creditable, late, actor).value;
      HotWalletStays(b, b1, d.asset);
      RecordOneSucceeds(b1, d1, parsed[n], invoice, creditable, late, actor);
    }
  }

  /** A snapshot that acts on a deposit of a seeded asset is applied exactly when it is about the
      deposit's own invoice, or one nobody else holds, and none of its readable payments is for
      nothing: one payment of zero blocks the recording and crediting of all the others. */
  lemma SnapshotAppliesUnlessZero(b: Book, d: Deposit, s: Snapshot, terms: Terms, free: bool)
    requires Consistent(b) && DepositOk(b, d) && CreditsKnown(b, d, s.invoice) && HasHotWallet(b, d.asset) && Acts(d, s)
    ensures ApplyInvoiceState(b, d, s, terms, free).Success? <==>
      && (d.invoice.Some? ==> d.invoice.value == s.invoice) && (d.invoice.None? ==> free)
      && forall k :: 0 <= k < |Reading(s, terms)| ==> Reading(s, terms)[k].units > 0
  {
    hide Consistent, Extends, W.PostedTo, RecordAll, DepositEffect, CreditsKnown, DepositOk, Target, Reading, MoveStatus, HasHotWallet, Attach;
    if ApplyInvoiceState(b, d, s, terms, free).Success? {
      ApplyTakenApart(b, d, s, terms, free, _ => true);
    }
    if d.invoice.Some? ==> d.invoice.value == s.invoice {
      AttachKeeps(b, d, s);
      var d1 := Attached(d, s);
      if forall k :: 0 <= k < |Reading(s, terms)| ==> Reading(s, terms)[k].units > 0 {
        RecordAllSucceeds(b, d1, Reading(s, terms), s.invoice, Creditable(d1, Target(d1.expected, s, terms)),
                          s.additional == PaidLate, terms.actor);
      }
    }
  }

  // -- which payments are credited ---------------------------------------------------------------

  lemma {:induction false} RecordingOnlyAdds(b: Book, d: Deposit, parsed: seq<Parsed>, invoice: string, late: bool, actor: string, payment: string)
    requires RecordAll(b, d, parsed, invoice, false, late, actor).Success?
    requires forall i, j :: 0 <= i < j < |d.rows| ==> d.rows[i].payment != d.rows[j].payment
    ensures var d' := RecordAll(b, d, parsed, invoice, false, late, actor).value.1;
      && (forall i, j :: 0 <= i < j < |d'.rows| ==> d'.rows[i].payment != d'.rows[j].payment)
      && (Recorded(d', payment, true) ==> Recorded(d, payment, true))
  {
    if parsed != [] {
      var n := |parsed| - 1;
      RecordingOnlyAdds(b, d, parsed[..n], invoice, late, actor, payment);
      var d1 := RecordAll(b, d, parsed[..n], invoice, false, late, actor).value.1;
      var d' := RecordAll(b, d, parsed, invoice, false, late, actor).value.1;
      if Recorded(d', payment, true) {
        FindUnique(d1.rows, FindRow(d'.rows, payment).value);
      }
    }
  }

  /** A settled invoice's payment ends up credited exactly when it already was, or when the
      deposit is neither failed, dismissed nor in review, whatever its caller was answered. */
  lemma SettledPaymentIsCredited(b: Book, d: Deposit, s: Snapshot, terms: Terms, free: bool, k: nat)
    requires Consistent(b) && DepositOk(b, d) && CreditsKnown(b, d, s.invoice)
    requires s.status == InvoiceSettled && Target(d.expected, s, terms) == Settled
    requires k < |Reading(s, terms)| && Reading(s, terms)[k].settled && ApplyInvoiceState(b, d, s, terms, free).Success?
    ensures Recorded(ApplyInvoiceState(b, d, s, terms, free).value.1, Reading(s, terms)[k].payment, true) <==>
      Recorded(d, Reading(s, terms)[k].payment, true) || (!Terminal(d.status) && d.status != Review)
  {
    hide Consistent, Extends, W.PostedTo, RecordAll, CreditsKnown, RowEntry, DepositEffect, Reading, Target, Recorded;
    var payment := Reading(s, terms)[k].payment;
    if Acts(d, s) {
      ApplyTakenApart(b, d, s, terms, free, _ => true);
      var d1 := Attached(d, s);
      var creditable := Creditable(d1, Target(d1.expected, s, terms));
      var d2 := RecordAll(b, d1, Reading(s, terms), s.invoice, creditable, s.additional == PaidLate, terms.actor).value.1;
      var d' := ApplyInvoiceState(b, d, s, terms, free).value.1;
      SameRowsRecorded(d, d1, payment);
      SameRowsRecorded(d2, d', payment);
      if creditable {
        assert Recorded(d2, payment, creditable && Reading(s, terms)[k].settled);
      } else {
        RecordingOnlyAdds(b, d1, Reading(s, terms), s.invoice, s.additional == PaidLate, terms.actor, payment);
        if Recorded(d1, payment, true) {
          RecordedStays(d1, d2, payment, true);
        }
      }
    }
  }

  lemma SameRowsRecorded(d: Deposit, d': Deposit, payment: string)
    requires d'.rows == d.rows
    ensures Recorded(d', payment, true) <==> Recorded(d, payment, true)
  {
  }

  // -- a payment of nothing ------------------------------------------------------------------------

  function CoinOnly(invoice: string): Snapshot {
    Snapshot(invoice, InvoiceSettled, Plain, [Observed("coin", "1", PaymentSettled)])
  }

  function ZeroAndCoin(invoice: string): Snapshot {
    Snapshot(invoice, InvoiceSettled, Plain, [Observed("zero", "0", PaymentSettled), Observed("coin", "1", PaymentSettled)])
  }

  lemma ReadOneMore(payments: seq<Observed>, o: Observed, units: nat)
    requires o.state == PaymentSettled && Amounts.ToUnits(o.value, 8) == Success(units)
    ensures Considered(payments + [o]) == Considered(payments) + [o]
    ensures Readable(payments + [o], 8) == Readable(payments, 8) + [Parsed(o.payment, units, true)]
  {
    hide Amounts.ToUnits;
    assert (payments + [o])[..|payments|] == payments;
  }

  lemma CoinReads(invoice: string, terms: Terms)
    requires terms.decimals == 8
    ensures Reading(CoinOnly(invoice), terms) == [Parsed("coin", 100_000_000, true)]
    ensures Reading(ZeroAndCoin(invoice), terms) == [Parsed("zero", 0, true), Parsed("coin", 100_000_000, true)]
    ensures !Unparseable(Considered(CoinOnly(invoice).payments), 8) && Considered(CoinOnly(invoice).payments) != []
  {
    hide Amounts.ToUnits, Considered, Readable;
    Amounts.ZeroAndOneCoin();
    var zero, coin := Observed("zero", "0", PaymentSettled), Observed("coin", "1", PaymentSettled);
    NothingReads();
    ReadOneMore([], zero, 0);
    ReadOneMore([], coin, 100_000_000);
    ReadOneMore([zero], coin, 100_000_000);
    assert [] + [zero] == [zero] && [] + [coin] == [coin] && [zero] + [coin] == [zero, coin];
  }

  lemma NothingReads()
    ensures Considered([]) == [] && Readable([], 8) == []
  {
  }

  /** One payment of zero in a settled invoice: the whole snapshot is refused, and the coin paid
      beside it, which would have been credited without it, is not. */
  lemma ZeroBlocksTheCoin(b: Book, d: Deposit, invoice: string, terms: Terms)
    requires Consistent(b) && DepositOk(b, d) && CreditsKnown(b, d, invoice) && HasHotWallet(b, d.asset)
    requires d.status == Pending && d.invoice == Some(invoice) && d.rows == [] && terms.decimals == 8 && !terms.pooled
    ensures ApplyInvoiceState(b, d, ZeroAndCoin(invoice), terms, true) == Failure(AmountNotPositive)
    ensures var r := ApplyInvoiceState(b, d, CoinOnly(invoice), terms, true);
      r.Success? && Recorded(r.value.1, "coin", true) && !Recorded(d, "coin", true)
  {
    hide Consistent, W.PostedTo, DepositOk, CreditsKnown, HasHotWallet, Credit, Considered, Unparseable, Recorded, Reading, RecordAll;
    CoinReads(invoice, terms);
    SnapshotAppliesUnlessZero(b, d, CoinOnly(invoice), terms, true);
    SettledPaymentIsCredited(b, d, CoinOnly(invoice), terms, true, 0);
    ZeroIsRefused(b, d, invoice, terms);
    NothingRecorded(d);
  }

  lemma NothingRecorded(d: Deposit)
    requires d.rows == []
    ensures !Recorded(d, "coin", true)
  {
  }

  lemma ZeroIsRefused(b: Book, d: Deposit, invoice: string, terms: Terms)
    requires d.rows == [] && terms.decimals == 8
    ensures forall creditable, late :: RecordAll(b, d, Reading(ZeroAndCoin(invoice), terms), invoice, creditable, late, terms.actor) == Failure(AmountNotPositive)
  {
    hide Credit, Reading;
    CoinReads(invoice, terms);
    var zero, coin := Parsed("zero", 0, true), Parsed("coin", 100_000_000, true);
    assert [zero, coin][..1] == [zero] && [zero][..0] == [];
    forall creditable, late
      ensures RecordAll(b, d, [zero, coin], invoice, creditable, late, terms.actor) == Failure(AmountNotPositive)
    {
      assert RecordAll(b, d, [zero], invoice, creditable, late, terms.actor) == Failure(AmountNotPositive);
    }
  }
}
