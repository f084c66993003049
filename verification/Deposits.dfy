/** The deposit row, its payment rows, and the one transition function that moves them. */
module Deposits {
  import opened Wrappers
  import opened Sums
  import opened Ledger
  import Amounts
  import W = Withdrawals

  datatype DepositStatus = Creating | Pending | Confirming | Settled | Expired | Review | Dismissed | Failed

  /** A `deposit_payments` row; `entry` is set exactly when it is credited. */
  datatype PaymentRow = PaymentRow(payment: string, amount: int, afterExpiration: bool, entry: Option<nat>, resolvedBy: Option<string>)

  datatype Deposit = Deposit(user: string, asset: string, invoice: Option<string>, expected: Option<int>,
                             credited: int, status: DepositStatus, rows: seq<PaymentRow>)

  datatype InvoiceStatus = New | Processing | InvoiceSettled | InvoiceExpired | Invalid | Unrecognised

  datatype Additional = Plain | Marked | PaidLate | PaidPartial | PaidOver

  datatype PaymentState = PaymentSettled | PaymentInvalid | PaymentProcessing

  datatype Observed = Observed(payment: string, value: string, state: PaymentState)

  /** One view of an invoice and of the asset's payments on it: it may be stale. */
  datatype Snapshot = Snapshot(invoice: string, status: InvoiceStatus, additional: Additional, payments: seq<Observed>)

  /** What the transition reads from the asset and from settings. */
  datatype Terms = Terms(decimals: nat, pooled: bool, tolerancePct: real, actor: string)

  datatype Parsed = Parsed(payment: string, units: nat, settled: bool)

  datatype DepositError =
    | InvoiceMismatch | InvoiceTaken | IllegalTransition | PaymentNotFound | AmountNotPositive
    | AmountUnreadable | CreditRefused(error: LedgerError)

  type Outcome = Result<(Book, Deposit), DepositError>

  function AllowedTargets(from: DepositStatus): set<DepositStatus> {
    match from
    case Creating => {Pending, Confirming, Settled, Expired, Review, Failed}
    case Pending => {Confirming, Settled, Expired, Review}
    case Confirming => {Settled, Expired, Review}
    case Settled => {Review}
    case Expired => {Review, Settled}
    case Review => {}
    case Dismissed => {}
    case Failed => {}
  }

  predicate Terminal(s: DepositStatus) {
    s == Dismissed || s == Failed
  }

  // -- reading a snapshot ------------------------------------------------------------

  function Considered(payments: seq<Observed>): (r: seq<Observed>)
    ensures |r| <= |payments|
  {
    if payments == [] then []
    else
      var n := |payments| - 1;
      Considered(payments[..n]) + if payments[n].state != PaymentInvalid then [payments[n]] else []
  }

  function Readable(payments: seq<Observed>, decimals: nat): seq<Parsed> {
    if payments == [] then []
    else
      var n := |payments| - 1;
      match Amounts.ToUnits(payments[n].value, decimals)
      case Success(units) => Readable(payments[..n], decimals) + [Parsed(payments[n].payment, units, payments[n].state == PaymentSettled)]
      case Failure(_) => Readable(payments[..n], decimals)
  }

  predicate Unparseable(payments: seq<Observed>, decimals: nat) {
    exists k :: 0 <= k < |payments| && Amounts.ToUnits(payments[k].value, decimals).Failure?
  }

  function SettledUnits(): Parsed -> int {
    (p: Parsed) => if p.settled then p.units else 0
  }

  predicate BreachesPooledTolerance(expected: Option<int>, terms: Terms, parsed: seq<Parsed>) {
    && terms.pooled && expected.Some? && terms.tolerancePct > 0.0
    && var received := Sum(parsed, SettledUnits());
       var off := if received > expected.value then received - expected.value else expected.value - received;
       received != 0 && (off as real) > (expected.value as real) * terms.tolerancePct / 100.0
  }

  function InvoiceTarget(s: Snapshot, hasPayments: bool): DepositStatus {
    match s.status
    case New => if hasPayments then Confirming else Pending
    case Processing => Confirming
    case InvoiceSettled => if s.additional == Marked || s.additional == PaidLate then Review else Settled
    case InvoiceExpired =>
      if hasPayments || s.additional == PaidLate || s.additional == PaidPartial || s.additional == PaidOver then Review else Expired
    case Invalid => Review
    case Unrecognised => Review
  }

  function Reading(s: Snapshot, terms: Terms): seq<Parsed> {
    Readable(Considered(s.payments), terms.decimals)
  }

  /** Where the snapshot wants the deposit, everything ambiguous going to review. */
  function Target(expected: Option<int>, s: Snapshot, terms: Terms): DepositStatus {
    var payments := Considered(s.payments);
    var mapped := if Unparseable(payments, terms.decimals) then Review else InvoiceTarget(s, payments != []);
    if mapped == Settled && BreachesPooledTolerance(expected, terms, Reading(s, terms)) then Review else mapped
  }

  // -- payment rows --------------------------------------------------------------------

  function FindRow(rows: seq<PaymentRow>, payment: string): (r: Option<nat>)
    ensures r.Some? ==> r.value < |rows| && rows[r.value].payment == payment
    ensures r.None? <==> forall k :: 0 <= k < |rows| ==> rows[k].payment != payment
  {
    if rows == [] then None
    else if rows[|rows| - 1].payment == payment then Some(|rows| - 1)
    else FindRow(rows[..|rows| - 1], payment)
  }

  /** Insert-or-ignore: the first recorded amount stays. */
  function Upsert(d: Deposit, payment: string, units: int, afterExpiration: bool): Result<(Deposit, nat), DepositError> {
    if units <= 0 then Failure(AmountNotPositive)
    else match FindRow(d.rows, payment)
      case Some(k) => Success((d, k))
      case None =>
        Success((d.(rows := d.rows + [PaymentRow(payment, units, afterExpiration, None, None)]), |d.rows|))
  }

  function CreditEntry(d: Deposit, row: PaymentRow, invoice: string, hot: nat, available: nat): Entry {
    Entry(DepositCredit, d.asset, PaymentRef(invoice, row.payment),
          [Posting(hot, row.amount), Posting(available, -row.amount)], None)
  }

  /** Credits row `k`, adopting an entry that already exists for the payment. */
  function Credit(b: Book, d: Deposit, k: nat, invoice: string, actor: string): Outcome
    requires k < |d.rows|
  {
    match W.SystemAccount(b, d.asset, HotWallet)
    case Failure(_) => Failure(CreditRefused(AccountNotFound))
    case Success(hot) =>
      var (b1, available, _) := W.UserAccounts(b, d.asset, d.user);
      var row := d.rows[k];
      match Post(b1, CreditEntry(d, row, invoice, hot, available))
      case Success(b2) => Success((b2, WithCredit(d, k, |b1.entries|, actor)))
      case Failure(err) => if err.AlreadyPosted? then Success((b1, WithCredit(d, k, err.entry, actor))) else Failure(CreditRefused(err))
  }

  function WithCredit(d: Deposit, k: nat, entry: nat, actor: string): Deposit
    requires k < |d.rows|
  {
    d.(rows := d.rows[k := d.rows[k].(entry := Some(entry), resolvedBy := Some(actor))],
       credited := d.credited + d.rows[k].amount)
  }

  function RecordOne(b: Book, d: Deposit, p: Parsed, invoice: string, creditable: bool, late: bool, actor: string): Outcome {
    match Upsert(d, p.payment, p.units, late)
    case Failure(err) => Failure(err)
    case Success((d1, k)) =>
      assert k < |d1.rows|;
      if creditable && p.settled && d1.rows[k].entry.None? then Credit(b, d1, k, invoice, actor) else Success((b, d1))
  }

  function RecordAll(b: Book, d: Deposit, parsed: seq<Parsed>, invoice: string, creditable: bool, late: bool, actor: string): Outcome {
    if parsed == [] then Success((b, d))
    else
      var n := |parsed| - 1;
      var (b1, d1) :- RecordAll(b, d, parsed[..n], invoice, creditable, late, actor);
      RecordOne(b1, d1, parsed[n], invoice, creditable, late, actor)
  }

  predicate AllCredited(d: Deposit) {
    forall k :: 0 <= k < |d.rows| ==> d.rows[k].entry.Some?
  }

  // -- the transitions -------------------------------------------------------------------

  /** What a request handler read of the row before it called the backend. */
  datatype Seen = Seen(invoice: Option<string>, status: DepositStatus)

  function SeenOf(d: Deposit): Seen {
    Seen(d.invoice, d.status)
  }

  /** The handler writes through its own copy: the invoice replaces whatever the row holds by
      then, and a status it read as `creating` becomes `pending` whatever the row's is. */
  function AttachFrom(seen: Seen, d: Deposit, invoice: string): Deposit {
    d.(invoice := Some(invoice), status := if seen.status == Creating then Pending else d.status)
  }

  function Attach(d: Deposit, invoice: string): Deposit {
    AttachFrom(SeenOf(d), d, invoice)
  }

  /** Where the recorded deposit ends up once the snapshot asks for `target`. */
  function MoveStatus(d: Deposit, target: DepositStatus): Deposit {
    var final := if target == Review && d.status == Settled && AllCredited(d) then Settled else target;
    if final in AllowedTargets(d.status) then d.(status := final) else d
  }

  predicate Acts(d: Deposit, s: Snapshot) {
    !Terminal(d.status) && s.status != Unrecognised
  }

  predicate Creditable(d: Deposit, target: DepositStatus) {
    target == Settled && d.status != Review && !Terminal(d.status)
  }

  /** Brings a deposit in line with a view of its invoice. `invoiceFree` says that no other
      deposit holds the invoice. */
  function ApplyInvoiceState(b: Book, d: Deposit, s: Snapshot, terms: Terms, invoiceFree: bool): Outcome {
    if d.invoice.Some? && d.invoice.value != s.invoice then Failure(InvoiceMismatch)
    else if !Acts(d, s) then Success((b, d))
    else if d.invoice.None? && !invoiceFree then Failure(InvoiceTaken)
    else
      var d1 := if d.invoice.None? then Attach(d, s.invoice) else d;
      var target := Target(d1.expected, s, terms);
      var (b2, d2) :- RecordAll(b, d1, Reading(s, terms), s.invoice, Creditable(d1, target),
                                s.additional == PaidLate, terms.actor);
      Success((b2, MoveStatus(d2, target)))
  }

  datatype Resolution = Dismiss | CreditPayment(payment: string)

  function FindObserved(payments: seq<Observed>, payment: string): Option<Observed> {
    if payments == [] then None
    else if payments[0].payment == payment then Some(payments[0])
    else FindObserved(payments[1..], payment)
  }

  /** An admin decides: dismiss, or credit one payment at the amount the backend reports now. */
  function ResolveReview(b: Book, d: Deposit, action: Resolution, payments: seq<Observed>, terms: Terms): Outcome {
    if d.status != Review then Failure(IllegalTransition)
    else match action
      case Dismiss => Success((b, d.(status := Dismissed)))
      case CreditPayment(payment) =>
        if payment == "" then Failure(PaymentNotFound)
        else if d.invoice.None? then Failure(InvoiceMismatch)
        else match FindObserved(payments, payment)
          case None => Failure(PaymentNotFound)
          case Some(observed) =>
            if observed.state != PaymentSettled then Failure(PaymentNotFound)
            else match Amounts.ToUnits(observed.value, terms.decimals)
              case Failure(_) => Failure(AmountUnreadable)
              case Success(units) =>
                var (b', d') :- RecordOne(b, d, Parsed(payment, units, true), d.invoice.value, true, true, terms.actor);
                Success((b', d'.(status := Settled)))
  }

  /** Fails a deposit that the handler's copy still has in `creating`, whatever the row's status is. */
  function MarkFailed(seen: Seen, d: Deposit): Result<Deposit, DepositError> {
    if seen.status != Creating then Failure(IllegalTransition) else Success(d.(status := Failed))
  }

  // -- what every transition keeps ---------------------------------------------------------

  function CreditedAmount(): PaymentRow -> int {
    (r: PaymentRow) => if r.entry.Some? then r.amount else 0
  }

  /** Payments are unique, the credited total is the sum of the credited rows, and each of
      those rows points at its own entry, which put exactly its amount into custody. */
  ghost predicate DepositOk(b: Book, d: Deposit) {
    && (forall i, j :: 0 <= i < j < |d.rows| ==> d.rows[i].payment != d.rows[j].payment)
    && (forall i :: 0 <= i < |d.rows| ==> d.rows[i].amount > 0)
    && d.credited == Sum(d.rows, CreditedAmount())
    && (forall i :: 0 <= i < |d.rows| && d.rows[i].entry.Some? ==> RowEntry(b, d, d.rows[i]))
  }

  ghost predicate RowEntry(b: Book, d: Deposit, row: PaymentRow) {
    && row.entry.Some? && row.entry.value < |b.entries| && d.invoice.Some?
    && b.entries[row.entry.value].kind == DepositCredit
    && b.entries[row.entry.value].ref == PaymentRef(d.invoice.value, row.payment)
    && W.PostedTo(b, row.entry, HotWallet) == row.amount
  }

  predicate IsCreditOf(e: Entry, invoice: string) {
    e.kind == DepositCredit && e.ref.PaymentRef? && e.ref.invoice == invoice
  }

  predicate HasCredit(d: Deposit, payment: string, entry: nat) {
    var r := FindRow(d.rows, payment);
    r.Some? && d.rows[r.value].entry == Some(entry)
  }

  /** Every credit entry of the invoice belongs to a credited row of this deposit. */
  ghost predicate CreditsKnown(b: Book, d: Deposit, invoice: string) {
    forall k :: 0 <= k < |b.entries| && IsCreditOf(b.entries[k], invoice) ==> HasCredit(d, b.entries[k].ref.payment, k)
  }

  function DepositEffect(d: Deposit, sel: AccountKey -> bool): int {
    (if sel(W.SystemKey(d.asset, HotWallet)) then d.credited else 0)
      + (if sel(W.AvailableKey(d.asset, d.user)) then -d.credited else 0)
  }

  /** Rows only accumulate: amounts and credits already recorded never change. */
  predicate Grows(d: Deposit, d': Deposit) {
    && d'.user == d.user && d'.asset == d.asset && d'.expected == d.expected
    && (d.invoice.Some? ==> d'.invoice == d.invoice)
    && |d.rows| <= |d'.rows|
    && forall i :: 0 <= i < |d.rows| ==>
         && d'.rows[i].payment == d.rows[i].payment && d'.rows[i].amount == d.rows[i].amount
         && (d.rows[i].entry.Some? ==> d'.rows[i] == d.rows[i])
  }
}
