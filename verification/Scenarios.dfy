/** Concrete starting points: seeded books, one user with credited funds, and entries that the
    ledger accepts. Where a promise has a limit, a run from here shows it. */
module Scenarios {
  import opened Wrappers
  import opened Sums
  import opened Ledger
  import opened Fees
  import opened Withdrawals
  import opened WithdrawalBooks
  import opened MoneyPath
  import opened MoneyRuns
  import opened Custody
  import opened Solvency
  import D = Deposits
  import DB = DepositBooks
  import Amounts
  import Tron

  const COIN := "BTC"
  const HOLDER := "user"

  // -- seeded books --------------------------------------------------------------------------

  function Seeded(): Book {
    Book([Account(SystemKey(COIN, HotWallet), 0), Account(SystemKey(COIN, PayoutsInFlight), 0),
          Account(SystemKey(COIN, FeeIncome), 0), Account(SystemKey(COIN, NetworkFeeExpense), 0)], [])
  }

  /** The system accounts that the money path posts to. */
  predicate HasSystemAccounts(b: Book) {
    forall kind :: kind in {HotWallet, PayoutsInFlight, FeeIncome, NetworkFeeExpense} ==> SystemAccount(b, COIN, kind).Success?
  }

  lemma SeededIsConsistent()
    ensures Consistent(Seeded()) && HasSystemAccounts(Seeded())
  {
    var accounts := Seeded().accounts;
    assert accounts[0].key == SystemKey(COIN, HotWallet) && accounts[1].key == SystemKey(COIN, PayoutsInFlight);
    assert accounts[2].key == SystemKey(COIN, FeeIncome) && accounts[3].key == SystemKey(COIN, NetworkFeeExpense);
  }

  lemma SystemAccountsStay(b: Book, b': Book)
    requires Extends(b, b') && HasSystemAccounts(b)
    ensures HasSystemAccounts(b')
  {
    forall kind | kind in {HotWallet, PayoutsInFlight, FeeIncome, NetworkFeeExpense} ensures SystemAccount(b', COIN, kind).Success? {
      var id := SystemAccount(b, COIN, kind).value;
      assert b'.accounts[id].key == SystemKey(COIN, kind);
    }
  }

  // -- entries the ledger accepts --------------------------------------------------------------

  /** A balanced entry of the asset's own accounts, posted for the first time, can only lack funds. */
  lemma PostUnlessShort(b: Book, e: Entry)
    requires |e.postings| >= 2 && Total(e.postings) == 0 && FindEntry(b.entries, e.kind, e.ref).None?
    requires forall p :: p in e.postings ==> p.amount != 0 && ValidId(b.accounts, p.account) && b.accounts[p.account].key.asset == e.asset
    ensures PostFor(b, e).Success? || PostFor(b, e) == Failure(SHORT)
  {
  }

  /** Two opposite lines on two accounts that can afford them, posted for the first time. */
  lemma PairSucceeds(b: Book, e: Entry, p: Posting, q: Posting)
    requires Consistent(b) && e.postings == [p, q] && p.amount == -q.amount && p.amount != 0 && p.account != q.account
    requires ValidId(b.accounts, p.account) && b.accounts[p.account].key.asset == e.asset
    requires ValidId(b.accounts, q.account) && b.accounts[q.account].key.asset == e.asset
    requires FindEntry(b.entries, e.kind, e.ref).None?
    requires Affords(b, b.accounts[p.account].key, p.amount) && Affords(b, b.accounts[q.account].key, q.amount)
    ensures PostFor(b, e).Success?
  {
    hide Consistent, Affords, PostFor;
    DB.PairTotal(p, q);
    NeverShort(b, e);
    PostUnlessShort(b, e);
  }

  /** A hold on funds that are there is placed, and moves them from available to held. */
  lemma HoldIsPlaced(b: Book, ws: seq<Withdrawal>, assets: map<string, AssetRow>, req: Request, now: int, createdAt: int)
    requires Consistent(b) && HasSystemAccounts(b) && req.asset == COIN && COIN in assets
    requires assets[COIN].enabled && assets[COIN].minimum <= req.gross && 0 < req.gross <= MAX_BIGINT
    requires Balance(b, AvailableKey(COIN, req.user)) <= -req.gross
    requires FindEntry(b.entries, WithdrawalHold, WithdrawalRef("withdrawal_hold", |ws|)).None?
    ensures PlaceHold(b, ws, assets, req, now, createdAt).Success?
    ensures var (b', w) := PlaceHold(b, ws, assets, req, now, createdAt).value;
      var manual := NeedsManual(ws, assets[COIN], COIN, req.user, req.gross, req.forceManual, now);
      && Consistent(b') && Extends(b, b') && |b'.entries| == |b.entries| + 1
      && b'.entries[|b.entries|].ref == WithdrawalRef("withdrawal_hold", |ws|)
      && w == Withdrawal(req.user, COIN, req.destination, req.gross, None, None, if manual then PendingApproval else Approved, !manual,
                         req.backend, None, None, w.hold, None, None, None, None, None, createdAt)
      && (forall key :: Balance(b', key) == Balance(b, key) + HoldShare(w, IsKey(key)))
  {
    hide Consistent, Extends, NeedsManual, Balance, UserAccounts, Affords, NoDepositCredits, PostedTo;
    var (b1, available, hold) := UserAccounts(b, COIN, req.user);
    UserAccountsStep(b, COIN, req.user, _ => true);
    ProvisioningMovesNothing(b, COIN, req.user, AvailableKey(COIN, req.user));
    BalanceAt(b1, available);
    OwnSign(b1, HoldKey(COIN, req.user));
    AffordsCredit(b1, AvailableKey(COIN, req.user), req.gross);
    AffordsCredit(b1, HoldKey(COIN, req.user), -req.gross);
    assert SystemAccount(b, COIN, HotWallet).Success?;
    var manual := NeedsManual(ws, assets[COIN], COIN, req.user, req.gross, req.forceManual, now);
    var w := Withdrawal(req.user, COIN, req.destination, req.gross, None, None, if manual then PendingApproval else Approved, !manual,
                        req.backend, None, None, None, None, None, None, None, None, createdAt);
    PairSucceeds(b1, HoldEntry(|ws|, w, available, hold), Posting(available, w.gross), Posting(hold, -w.gross));
    PairStep(b1, HoldEntry(|ws|, w, available, hold), Posting(available, w.gross), Posting(hold, -w.gross), _ => true);
    var (b', w') := PlaceHold(b, ws, assets, req, now, createdAt).value;
    ExtendsTransitive(b, b1, b');
    forall key ensures Balance(b', key) == Balance(b, key) + HoldShare(w', IsKey(key)) {
      PlaceHoldAccounted(b, ws, assets, req, now, createdAt, IsKey(key));
      BalanceIsSelected(b, key);
      BalanceIsSelected(b', key);
    }
  }

  // -- a user with funds -------------------------------------------------------------------------

  function Start(): Sys {
    Sys(Seeded(), [], [], [], [])
  }

  function Payment(units: nat): D.Snapshot {
    D.Snapshot("invoice", D.InvoiceSettled, D.Plain, [D.Observed("payment", AmountText(units, 8), D.PaymentSettled)])
  }

  const TERMS := D.Terms(8, false, 0.0, "webhook")

  const OPENING := NewDeposit(HOLDER, COIN, None)

  /** A deposit of `units` was opened and its settled invoice applied. */
  function Funded(cfg: Config, units: nat): Sys {
    Next(cfg, Next(cfg, Start(), OPENING), ApplyInvoice(0, Payment(units), TERMS))
  }

  /** The holder owns what the hot wallet holds, and one journal entry says where it came from. */
  ghost predicate Credited(b: Book, d: D.Deposit, units: nat) {
    && Consistent(b) && HasSystemAccounts(b) && |b.entries| == 1 && b.entries[0].kind == DepositCredit
    && Balance(b, AvailableKey(COIN, HOLDER)) == 0 - units && Balance(b, SystemKey(COIN, HotWallet)) == units
    && d.invoice == Some("invoice") && d.credited == units
  }

  /** Nothing has been withdrawn yet. */
  ghost predicate Ready(s: Sys, units: nat) {
    && s.ws == [] && s.payouts == [] && s.workers == []
    && |s.deposits| == 1 && Credited(s.book, s.deposits[0], units) && s.deposits[0].status == D.Settled
  }

  lemma PaymentReads(units: nat)
    requires units <= Amounts.MAX_UNITS
    ensures D.Reading(Payment(units), TERMS) == [D.Parsed("payment", units, true)]
    ensures forall expected :: D.Target(expected, Payment(units), TERMS) == D.Settled
  {
    hide Amounts.ToUnits, AmountText, D.Considered, D.Readable;
    UnitsRead(units);
    DB.NothingReads();
    var o := D.Observed("payment", AmountText(units, 8), D.PaymentSettled);
    DB.ReadOneMore([], o, units);
    assert [] + [o] == [o];
  }

  lemma UnitsRead(units: nat)
    requires units <= Amounts.MAX_UNITS
    ensures Amounts.ToUnits(AmountText(units, 8), 8) == Success(units)
  {
    hide Amounts.ToUnits, Amounts.FromUnits;
    Amounts.PowTen28();
    Amounts.UnitsRoundTrip(units, 8);
  }

  const NEW_DEPOSIT := D.Deposit(HOLDER, COIN, None, None, 0, D.Creating, [])

  lemma OpeningAddsRow(cfg: Config)
    ensures Next(cfg, Start(), OPENING) == Start().(deposits := [NEW_DEPOSIT])
  {
    assert Start().deposits + [NEW_DEPOSIT] == [NEW_DEPOSIT];
  }

  lemma FundedIsReady(cfg: Config, units: nat)
    requires 0 < units <= Amounts.MAX_UNITS
    ensures Ready(Funded(cfg, units), units)
  {
    hide Credited, D.ApplyInvoiceState, Payment, Seeded, NextWithdrawal, NextWorker;
    OpeningAddsRow(cfg);
    PaymentApplies(units);
    FirstInvoiceIsFree(Payment(units).invoice);
  }

  lemma FirstInvoiceIsFree(invoice: string)
    ensures InvoiceFree([NEW_DEPOSIT], 0, invoice)
  {
  }

  lemma PaymentApplies(units: nat)
    requires 0 < units <= Amounts.MAX_UNITS
    ensures var r := D.ApplyInvoiceState(Seeded(), NEW_DEPOSIT, Payment(units), TERMS, true);
      r.Success? && Credited(r.value.0, r.value.1, units) && r.value.1.status == D.Settled
  {
    hide D.Credit, D.Reading, D.Target, D.RecordOne, Credited, Seeded, AmountText;
    PaymentReads(units);
    FirstCredit(units);
    var parsed := [D.Parsed("payment", units, true)];
    assert parsed[..0] == [];
    var d := D.Attach(NEW_DEPOSIT, "invoice");
    assert D.RecordAll(Seeded(), d, parsed, "invoice", true, false, "webhook") == D.RecordOne(Seeded(), d, parsed[0], "invoice", true, false, "webhook");
    MoveKeepsCredited(FirstRecord(units).value.0, FirstRecord(units).value.1, units);
  }

  lemma MoveKeepsCredited(b: Book, d: D.Deposit, units: nat)
    requires Credited(b, d, units) && d.status == D.Pending
    ensures Credited(b, D.MoveStatus(d, D.Settled), units) && D.MoveStatus(d, D.Settled).status == D.Settled
  {
    hide Consistent, HasSystemAccounts, Balance;
  }

  function FirstRecord(units: nat): D.Outcome {
    D.RecordOne(Seeded(), D.Attach(NEW_DEPOSIT, "invoice"), D.Parsed("payment", units, true), "invoice", true, false, "webhook")
  }

  lemma FirstCredit(units: nat)
    requires units > 0
    ensures var r := FirstRecord(units);
      r.Success? && Credited(r.value.0, r.value.1, units) && r.value.1.status == D.Pending
  {
    hide Consistent, HasSystemAccounts, D.Credit, Balance, PostedTo, Extends, Seeded;
    var b, row := Seeded(), D.PaymentRow("payment", units, false, None, None);
    SeededIsConsistent();
    EmptyBalances();
    var d := D.Attach(NEW_DEPOSIT, "invoice").(rows := [row]);
    assert NEW_DEPOSIT.rows + [row] == d.rows;
    WalletExists(b);
    DB.CreditSucceeds(b, d, 0, "invoice", "webhook");
    FreshDeposit(b, d);
    var (b', d') := D.Credit(b, d, 0, "invoice", "webhook").value;
    CreditMoves(b, d, AvailableKey(COIN, HOLDER));
    CreditMoves(b, d, SystemKey(COIN, HotWallet));
    SystemAccountsStay(b, b');
  }

  lemma WalletExists(b: Book)
    requires HasSystemAccounts(b)
    ensures DB.HasHotWallet(b, COIN)
  {
    assert SystemAccount(b, COIN, HotWallet).Success?;
  }

  lemma CreditMoves(b: Book, d: D.Deposit, key: AccountKey)
    requires Consistent(b) && D.DepositOk(b, d) && D.CreditsKnown(b, d, "invoice") && d.invoice == Some("invoice")
    requires |d.rows| == 1 && d.rows[0].entry.None? && D.Credit(b, d, 0, "invoice", "webhook").Success?
    ensures var (b', d') := D.Credit(b, d, 0, "invoice", "webhook").value;
      && Consistent(b') && Extends(b, b') && |b'.entries| == |b.entries| + 1 && b'.entries[|b.entries|].kind == DepositCredit
      && d' == D.WithCredit(d, 0, |b.entries|, "webhook")
      && Balance(b', key) - Balance(b, key) == D.DepositEffect(d', IsKey(key)) - D.DepositEffect(d, IsKey(key))
  {
    hide Consistent, Extends, D.Credit, Balance, PostedTo, D.DepositOk, D.CreditsKnown, D.DepositEffect;
    DB.CreditPosts(b, d, 0, "invoice", "webhook", IsKey(key));
    BalanceIsSelected(b, key);
    BalanceIsSelected(D.Credit(b, d, 0, "invoice", "webhook").value.0, key);
  }

  lemma FreshDeposit(b: Book, d: D.Deposit)
    requires b == Seeded() && |d.rows| == 1 && d.rows[0].entry.None? && d.rows[0].amount > 0 && d.credited == 0
    ensures D.DepositOk(b, d) && D.CreditsKnown(b, d, "invoice") && b.entries == []
  {
    assert d.rows[..0] == [];
  }

  lemma EmptyBalances()
    ensures Balance(Seeded(), AvailableKey(COIN, HOLDER)) == 0 && Balance(Seeded(), SystemKey(COIN, HotWallet)) == 0
  {
  }

  lemma StartIsInitial()
    ensures IsInitial(Start())
  {
    hide Consistent;
    SeededIsConsistent();
  }

  // -- one hold ------------------------------------------------------------------------------------

  /** One asset whose caps, per day and per user, are a single withdrawal of `cap`. */
  function OneADay(cap: nat): Config {
    Config(map[COIN := AssetRow(cap, cap, Some(cap), 1, 8, true)], Tron.Chain(map[], "", ""))
  }

  function FullRequest(cap: nat): Request {
    Request(HOLDER, COIN, cap, "destination", BtcPay, false)
  }

  /** A user with `units` holds the whole cap. */
  function OnHold(cap: nat, units: nat, now: int): Sys {
    Next(OneADay(cap), Funded(OneADay(cap), units), Hold(FullRequest(cap), now, 0))
  }

  /** An automatically approved hold of the cap that nothing has happened to yet. */
  predicate AutoHold(w: Withdrawal, cap: nat, at: int) {
    w == Withdrawal(HOLDER, COIN, "destination", cap, None, None, Approved, true, BtcPay, None, None, w.hold, None, None, None, None, None, at)
  }

  /** Two entries: the deposit and the hold. */
  predicate HoldPosted(entries: seq<Entry>) {
    |entries| == 2 && entries[0].kind == DepositCredit && entries[1].ref == WithdrawalRef("withdrawal_hold", 0)
  }

  ghost predicate ReadyToSend(s: Sys, cap: nat, units: nat) {
    && |s.ws| == 1 && AutoHold(s.ws[0], cap, 0) && s.payouts == [] && s.workers == []
    && Consistent(s.book) && HasSystemAccounts(s.book) && HoldPosted(s.book.entries)
    && Balance(s.book, AvailableKey(COIN, HOLDER)) == cap - units && Balance(s.book, HoldKey(COIN, HOLDER)) <= 0 - cap
    && Balance(s.book, SystemKey(COIN, HotWallet)) == units
  }

  lemma OnHoldIsReady(cap: nat, units: nat, now: int)
    requires 0 < cap <= units <= Amounts.MAX_UNITS
    ensures ReadyToSend(OnHold(cap, units, now), cap, units)
  {
    hide Funded, Consistent, Extends, HasSystemAccounts, Balance, PlaceHold, HoldShare, NeedsManual, NextDeposit, NextWorker;
    var assets, req := OneADay(cap).assets, FullRequest(cap);
    var s := Funded(OneADay(cap), units);
    FundedIsReady(OneADay(cap), units);
    FirstHoldIsFree(s.book.entries);
    HoldIsPlaced(s.book, s.ws, assets, req, now, 0);
    FirstIsAutomatic(cap, now);
    var (b, w) := PlaceHold(s.book, s.ws, assets, req, now, 0).value;
    HoldMoves(w);
    OwnSign(s.book, HoldKey(COIN, HOLDER));
    SystemAccountsStay(s.book, b);
    LaterEntry(s.book, b);
  }

  lemma LaterEntry(b: Book, b': Book)
    requires Extends(b, b') && |b.entries| == 1
    ensures b'.entries[0] == b.entries[0]
  {
  }

  lemma FirstHoldIsFree(entries: seq<Entry>)
    requires |entries| == 1 && entries[0].kind == DepositCredit
    ensures FindEntry(entries, WithdrawalHold, WithdrawalRef("withdrawal_hold", 0)).None?
  {
  }

  lemma FirstIsAutomatic(cap: nat, now: int)
    ensures !NeedsManual([], OneADay(cap).assets[COIN], COIN, HOLDER, cap, false, now)
  {
  }

  lemma HoldMoves(w: Withdrawal)
    requires w.asset == COIN && w.user == HOLDER
    ensures HoldShare(w, IsKey(AvailableKey(COIN, HOLDER))) == w.gross
    ensures HoldShare(w, IsKey(HoldKey(COIN, HOLDER))) == -w.gross
    ensures HoldShare(w, IsKey(SystemKey(COIN, HotWallet))) == 0
  {
  }

  /** No other withdrawal entry has been posted. */
  lemma NotPosted(entries: seq<Entry>, kind: EntryKind, ref: SourceRef)
    requires HoldPosted(entries) && kind != DepositCredit && ref != WithdrawalRef("withdrawal_hold", 0)
    ensures FindEntry(entries, kind, ref).None?
  {
  }

  // -- sending it -----------------------------------------------------------------------------------

  /** The hold is claimed by a payout worker. */
  function Claiming(cap: nat, units: nat): Sys {
    Next(OneADay(cap), OnHold(cap, units, 0), ClaimRow(0))
  }

  lemma ClaimingIsReady(cap: nat, units: nat)
    requires 0 < cap <= units <= Amounts.MAX_UNITS
    ensures var s, held := Claiming(cap, units), OnHold(cap, units, 0);
      && ReadyToSend(held, cap, units) && Reachable(OneADay(cap), s)
      && s == held.(ws := [held.ws[0].(status := Submitting)], workers := [Worker(0, MoneyPath.Claimed)])
  {
    hide OnHold, Consistent, HasSystemAccounts, Balance, NextDeposit, NextWithdrawal;
    OnHoldIsReady(cap, units, 0);
    OnHoldIsReachable(cap, units, 0);
    ClaimIsReachable(cap, units);
    var held := OnHold(cap, units, 0);
    assert held.ws[0 := held.ws[0].(status := Submitting)] == [held.ws[0].(status := Submitting)];
    assert held.workers + [Worker(0, MoneyPath.Claimed)] == [Worker(0, MoneyPath.Claimed)];
  }

  lemma FundedIsReachable(cfg: Config, units: nat)
    ensures Reachable(cfg, Funded(cfg, units))
  {
    hide Next, Seeded, Payment, StepAt;
    StartIsInitial();
    var states, steps: seq<Step> := [Start()], [];
    assert History(cfg, states, steps) && states[|steps|] == Start();
    ReachableNext(cfg, Start(), OPENING);
    ReachableNext(cfg, Next(cfg, Start(), OPENING), ApplyInvoice(0, Payment(units), TERMS));
  }

  lemma OnHoldIsReachable(cap: nat, units: nat, now: int)
    ensures Reachable(OneADay(cap), OnHold(cap, units, now))
  {
    hide Next, Funded, Reachable, FullRequest;
    FundedIsReachable(OneADay(cap), units);
    ReachableNext(OneADay(cap), Funded(OneADay(cap), units), Hold(FullRequest(cap), now, 0));
  }

  lemma ClaimIsReachable(cap: nat, units: nat)
    ensures Reachable(OneADay(cap), OnHold(cap, units, 0)) ==> Reachable(OneADay(cap), Claiming(cap, units))
  {
    hide Next, OnHold, Reachable;
    if Reachable(OneADay(cap), OnHold(cap, units, 0)) {
      ReachableNext(OneADay(cap), OnHold(cap, units, 0), ClaimRow(0));
    }
  }

  /** A commitment that the hot wallet has room for is posted. */
  lemma SubmitIsPosted(b: Book, w: Withdrawal, q: FeeQuote)
    requires Consistent(b) && HasSystemAccounts(b) && w.asset == COIN && q.Committed() > 0
    requires Balance(b, SystemKey(COIN, HotWallet)) >= q.Committed()
    requires FindEntry(b.entries, WithdrawalSubmit, WithdrawalRef("withdrawal_submit", 0)).None?
    ensures PostSubmitEntry(b, 0, w, q).Success?
  {
    hide Consistent, Balance, Affords, PostFor;
    assert SystemAccount(b, COIN, HotWallet).Success? && SystemAccount(b, COIN, PayoutsInFlight).Success?;
    var hot, inFlight := SystemAccount(b, COIN, HotWallet).value, SystemAccount(b, COIN, PayoutsInFlight).value;
    OwnSign(b, SystemKey(COIN, PayoutsInFlight));
    AffordsDebit(b, SystemKey(COIN, HotWallet), -q.Committed());
    AffordsDebit(b, SystemKey(COIN, PayoutsInFlight), q.Committed());
    PairSucceeds(b, Entry(WithdrawalSubmit, COIN, WithdrawalRef("withdrawal_submit", 0),
                          [Posting(inFlight, q.Committed()), Posting(hot, -q.Committed())], None),
                 Posting(inFlight, q.Committed()), Posting(hot, -q.Committed()));
  }

  /** What a commitment leaves for the settlement to find. */
  lemma SubmitLeaves(b: Book, w: Withdrawal, q: FeeQuote)
    requires Consistent(b) && HasSystemAccounts(b) && w.asset == COIN && w.user == HOLDER && PostSubmitEntry(b, 0, w, q).Success?
    ensures var (b', w') := PostSubmitEntry(b, 0, w, q).value;
      && Consistent(b') && HasSystemAccounts(b') && Committed(b', w') == q.Committed() && w' == w.(submit := w'.submit) && w'.submit.Some?
      && Balance(b', HoldKey(COIN, HOLDER)) == Balance(b, HoldKey(COIN, HOLDER))
      && Balance(b', SystemKey(COIN, PayoutsInFlight)) == Balance(b, SystemKey(COIN, PayoutsInFlight)) + q.Committed()
      && b.entries <= b'.entries && |b'.entries| == |b.entries| + 1 && b'.entries[|b.entries|].kind == WithdrawalSubmit
  {
    hide Consistent, Balance, PostSubmitEntry, Extends, NoDepositCredits, PostedTo;
    var (b', w') := PostSubmitEntry(b, 0, w, q).value;
    PostSubmitStep(b, 0, w, q, IsKey(HoldKey(COIN, HOLDER)));
    PostSubmitStep(b, 0, w, q, IsKey(SystemKey(COIN, PayoutsInFlight)));
    ReadBalances(b, b');
    SystemAccountsStay(b, b');
    SubmitAppends(b, w, q);
  }

  lemma ReadBalances(b: Book, b': Book)
    requires Consistent(b) && Consistent(b')
    ensures forall key :: SelSum(b.accounts, IsKey(key)) == Balance(b, key) && SelSum(b'.accounts, IsKey(key)) == Balance(b', key)
  {
    hide Consistent, Balance;
    forall key ensures SelSum(b.accounts, IsKey(key)) == Balance(b, key) && SelSum(b'.accounts, IsKey(key)) == Balance(b', key) {
      BalanceIsSelected(b, key);
      BalanceIsSelected(b', key);
    }
  }

  lemma SubmitAppends(b: Book, w: Withdrawal, q: FeeQuote)
    requires PostSubmitEntry(b, 0, w, q).Success?
    ensures var b' := PostSubmitEntry(b, 0, w, q).value.0;
      b.entries <= b'.entries && |b'.entries| == |b.entries| + 1 && b'.entries[|b.entries|].kind == WithdrawalSubmit
  {
  }

  // -- settling it ----------------------------------------------------------------------------------

  lemma OneIfMember(ps: seq<Posting>, condition: bool, p: Posting, x: Posting)
    ensures x in ps + OneIf(condition, p) <==> x in ps || (condition && x == p)
  {
  }

  lemma SettlePostingsAre(w: Withdrawal, committed: int, walletFee: int, hold: nat, inFlight: nat, expense: nat, income: nat, hot: nat, x: Posting)
    requires x in SettlePostings(w, committed, walletFee, hold, inFlight, expense, income, hot) && w.gross != 0 && committed != 0
    requires walletFee == committed - SettleNet(w)
    ensures x.amount != 0 && x.account in {hold as int, inFlight as int, expense as int, income as int}
  {
    var first := [Posting(hold, w.gross), Posting(inFlight, -committed)];
    var second := first + OneIf(walletFee != 0, Posting(expense, walletFee));
    var third := second + OneIf(SettleFee(w) != 0, Posting(income, -SettleFee(w)));
    OneIfMember(first, walletFee != 0, Posting(expense, walletFee), x);
    OneIfMember(second, SettleFee(w) != 0, Posting(income, -SettleFee(w)), x);
    OneIfMember(third, false, Posting(hot, 0), x);
  }

  lemma OneIfTotal(ps: seq<Posting>, condition: bool, p: Posting)
    ensures Total(ps + OneIf(condition, p)) == Total(ps) + if condition then p.amount else 0
  {
    if condition {
      SumAppend(ps, p, Amount());
    } else {
      assert ps + OneIf(condition, p) == ps;
    }
  }

  lemma SettleBalances(w: Withdrawal, committed: int, walletFee: int, hold: nat, inFlight: nat, expense: nat, income: nat, hot: nat)
    requires SettleFee(w) + SettleNet(w) == w.gross
    ensures Total(SettlePostings(w, committed, walletFee, hold, inFlight, expense, income, hot)) == 0
  {
    var drift := walletFee - (committed - SettleNet(w));
    var first := [Posting(hold, w.gross), Posting(inFlight, -committed)];
    var second := first + OneIf(walletFee != 0, Posting(expense, walletFee));
    var third := second + OneIf(SettleFee(w) != 0, Posting(income, -SettleFee(w)));
    DB.PairTotal(first[0], first[1]);
    OneIfTotal(first, walletFee != 0, Posting(expense, walletFee));
    OneIfTotal(second, SettleFee(w) != 0, Posting(income, -SettleFee(w)));
    OneIfTotal(third, drift != 0, Posting(hot, -drift));
  }

  /** A submitted withdrawal whose fee nobody reports is settled at what was committed. */
  lemma SettleIsPosted(b: Book, w: Withdrawal)
    requires Consistent(b) && HasSystemAccounts(b) && w.asset == COIN && w.user == HOLDER && w.gross > 0 && w.submit.Some?
    requires SettleFee(w) >= 0 && SettleFee(w) + SettleNet(w) == w.gross && Committed(b, w) >= SettleNet(w) && Committed(b, w) > 0
    requires Balance(b, HoldKey(COIN, HOLDER)) <= -w.gross && Balance(b, SystemKey(COIN, PayoutsInFlight)) >= Committed(b, w)
    requires FindEntry(b.entries, WithdrawalSettle, WithdrawalRef("withdrawal_settle", 0)).None?
    ensures PostSettleEntry(b, 0, w, None).Success?
  {
    hide Consistent, Balance, Affords, PostFor, UserAccounts, SettlePostings, PostedTo, RoomToSettle, HasSystemAccounts, Extends;
    var committed, walletFee := Committed(b, w), Committed(b, w) - SettleNet(w);
    RoomForSettle(b, w, committed);
    RoomStays(b, w, committed, walletFee);
    SettleFromRoom(b, 0, w, None);
    var (b1, _, hold) := UserAccounts(b, COIN, HOLDER);
    UserAccountsStep(b, COIN, HOLDER, _ => true);
    SystemAccountsStay(b, b1);
    SystemKinds(b1);
    var inFlight := SystemAccount(b1, COIN, PayoutsInFlight).value;
    var expense := SystemAccount(b1, COIN, NetworkFeeExpense).value;
    var income := SystemAccount(b1, COIN, FeeIncome).value;
    var e := Entry(WithdrawalSettle, COIN, WithdrawalRef("withdrawal_settle", 0),
                   SettlePostings(w, committed, walletFee, hold, inFlight, expense, income, 0), None);
    SettleBalances(w, committed, walletFee, hold, inFlight, expense, income, 0);
    forall p | p in e.postings ensures p.amount != 0 && ValidId(b1.accounts, p.account) && b1.accounts[p.account].key.asset == COIN {
      SettlePostingsAre(w, committed, walletFee, hold, inFlight, expense, income, 0, p);
    }
    AtLeastTwo(w, committed, walletFee, hold, inFlight, expense, income);
    PostUnlessShort(b1, e);
  }

  lemma SystemKinds(b: Book)
    requires HasSystemAccounts(b)
    ensures SystemAccount(b, COIN, HotWallet).Success? && SystemAccount(b, COIN, PayoutsInFlight).Success?
    ensures SystemAccount(b, COIN, NetworkFeeExpense).Success? && SystemAccount(b, COIN, FeeIncome).Success?
  {
  }

  lemma AtLeastTwo(w: Withdrawal, committed: int, walletFee: int, hold: nat, inFlight: nat, expense: nat, income: nat)
    ensures |SettlePostings(w, committed, walletFee, hold, inFlight, expense, income, 0)| >= 2
  {
  }

  lemma RoomForSettle(b: Book, w: Withdrawal, committed: int)
    requires Consistent(b) && w.asset == COIN && w.user == HOLDER && SettleFee(w) >= 0 && committed >= SettleNet(w)
    requires Balance(b, HoldKey(COIN, HOLDER)) <= -w.gross && Balance(b, SystemKey(COIN, PayoutsInFlight)) >= committed
    ensures RoomToSettle(b, w, committed, committed - SettleNet(w))
  {
    hide Consistent, Balance;
    OwnSign(b, SystemKey(COIN, NetworkFeeExpense));
    OwnSign(b, SystemKey(COIN, FeeIncome));
    OwnSign(b, SystemKey(COIN, HotWallet));
  }
}
