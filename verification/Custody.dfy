/** What every reachable ledger balance is made of, for every asset and user. */
module Custody {
  import opened Sums
  import opened Ledger
  import opened Withdrawals
  import opened WithdrawalBooks
  import opened MoneyPath
  import opened MoneyInvariants
  import opened MoneyFlow
  import opened MoneyRuns
  import opened LedgerChecker
  import D = Deposits

  // -- balances as selections ------------------------------------------------------------

  function IsKey(key: AccountKey): AccountKey -> bool {
    (k: AccountKey) => k == key
  }

  function Either(p: AccountKey -> bool, q: AccountKey -> bool): AccountKey -> bool {
    (key: AccountKey) => p(key) || q(key)
  }

  /** The materialised balance of an account, zero while the row does not exist. */
  function Balance(b: Book, key: AccountKey): int {
    match Find(b.accounts, key)
    case Some(id) => b.accounts[id].balance
    case None => 0
  }

  lemma BalanceIsSelected(b: Book, key: AccountKey)
    requires Consistent(b)
    ensures SelSum(b.accounts, IsKey(key)) == Balance(b, key)
  {
    match Find(b.accounts, key) {
      case Some(id) => SelOne(b.accounts, id, IsKey(key));
      case None => SelNone(b.accounts, IsKey(key));
    }
  }

  lemma SelEither(accounts: seq<Account>, p: AccountKey -> bool, q: AccountKey -> bool)
    requires forall i :: 0 <= i < |accounts| ==> !(p(accounts[i].key) && q(accounts[i].key))
    ensures SelSum(accounts, Either(p, q)) == SelSum(accounts, p) + SelSum(accounts, q)
  {
    SumAdds(accounts, Selected(p), Selected(q), Selected(Either(p, q)));
  }

  /** Per asset there is one row of each system kind, so its balance is the kind's sum. */
  lemma SystemKindIsOne(b: Book, asset: string, kind: AccountKind)
    requires Consistent(b) && !IsUserKind(kind)
    ensures KindSum(b.accounts, asset, kind) == Balance(b, SystemKey(asset, kind))
  {
    BalanceIsSelected(b, SystemKey(asset, kind));
    forall i | 0 <= i < |b.accounts|
      ensures Selected(OfKind(asset, kind))(b.accounts[i]) == Selected(IsKey(SystemKey(asset, kind)))(b.accounts[i])
    {
      assert IsUserKind(b.accounts[i].key.kind) == b.accounts[i].key.user.Some?;
    }
    SumSame(b.accounts, Selected(OfKind(asset, kind)), Selected(IsKey(SystemKey(asset, kind))));
  }

  // -- what the rows amount to ---------------------------------------------------------------

  predicate Outstanding(w: Withdrawal) {
    w.settle.None? && w.release.None?
  }

  /** Gross still held for a user. */
  function HeldFor(asset: string, user: string): Withdrawal -> int {
    (w: Withdrawal) => if w.asset == asset && w.user == user && w.hold.Some? && Outstanding(w) then w.gross else 0
  }

  /** What was committed to payouts that neither settled nor were reversed. */
  function InFlightOf(b: Book, asset: string): Withdrawal -> int {
    (w: Withdrawal) => if w.asset == asset && w.submit.Some? && Outstanding(w) then Committed(b, w) else 0
  }

  function SettledFor(asset: string, user: string): Withdrawal -> int {
    (w: Withdrawal) => if w.asset == asset && w.user == user && w.settle.Some? then w.gross else 0
  }

  /** What one settled withdrawal left us: the fee charged less the network fee booked. */
  function MarginOf(b: Book, asset: string): Withdrawal -> int {
    (w: Withdrawal) => if w.asset == asset && w.settle.Some? then SettleFee(w) - BookedFee(b, w) else 0
  }

  /** What one withdrawal keeps in the hot wallet beyond what users have available. */
  function ReserveOf(b: Book, asset: string): Withdrawal -> int {
    (w: Withdrawal) =>
      if w.asset != asset || w.release.Some? then 0
      else if w.settle.Some? then SettleFee(w) - BookedFee(b, w)
      else if w.submit.Some? then w.gross - Committed(b, w)
      else w.gross
  }

  function CreditedFor(asset: string, user: string): D.Deposit -> int {
    (d: D.Deposit) => if d.asset == asset && d.user == user then d.credited else 0
  }

  function Nothing(): D.Deposit -> int {
    (d: D.Deposit) => 0
  }

  lemma {:induction false} NothingAdds(ds: seq<D.Deposit>)
    ensures Sum(ds, Nothing()) == 0
  {
    if ds != [] {
      NothingAdds(ds[..|ds| - 1]);
    }
  }

  function Flipped(f: Withdrawal -> int): Withdrawal -> int {
    (w: Withdrawal) => -f(w)
  }

  lemma FlippedAdds(ws: seq<Withdrawal>, f: Withdrawal -> int)
    ensures Sum(ws, Flipped(f)) == -Sum(ws, f)
  {
    SumNegates(ws, f, Flipped(f));
  }

  /** Reads a selection of accounts off the rows. */
  lemma BooksRead(s: Sys, sel: AccountKey -> bool, f: Withdrawal -> int, g: D.Deposit -> int)
    requires Books(s, sel)
    requires forall i :: 0 <= i < |s.ws| ==> RowEffect(s.book, s.ws[i], sel) == f(s.ws[i])
    requires forall j :: 0 <= j < |s.deposits| ==> D.DepositEffect(s.deposits[j], sel) == g(s.deposits[j])
    ensures SelSum(s.book.accounts, sel) == Sum(s.ws, f) + Sum(s.deposits, g)
  {
    hide RowEffect, D.DepositEffect;
    SumSame(s.ws, EffectOf(s.book, sel), f);
    SumSame(s.deposits, DepositEffectOf(sel), g);
  }

  // -- exact decomposition --------------------------------------------------------------------

  lemma HeldEffect(b: Book, w: Withdrawal, asset: string, user: string)
    requires RowOk(b, w)
    ensures RowEffect(b, w, IsKey(HoldKey(asset, user))) == Flipped(HeldFor(asset, user))(w)
  {
    hide PostedTo;
  }

  /** A user's held balance is the gross of their withdrawals that neither settled nor were
      released. */
  lemma HeldIsOutstandingGross(cfg: Config, s: Sys, asset: string, user: string)
    requires Reachable(cfg, s)
    ensures -Balance(s.book, HoldKey(asset, user)) == Sum(s.ws, HeldFor(asset, user))
  {
    hide Reachable, FlowInv, Books, Consistent, RowOk, PostedTo, RowEffect, D.DepositOk;
    var sel := IsKey(HoldKey(asset, user));
    ReachableKept(cfg, s, sel);
    forall i | 0 <= i < |s.ws| ensures RowEffect(s.book, s.ws[i], sel) == Flipped(HeldFor(asset, user))(s.ws[i]) {
      assert RowInv(s.book, s.ws[i]);
      HeldEffect(s.book, s.ws[i], asset, user);
    }
    BooksRead(s, sel, Flipped(HeldFor(asset, user)), Nothing());
    NothingAdds(s.deposits);
    FlippedAdds(s.ws, HeldFor(asset, user));
    BalanceIsSelected(s.book, HoldKey(asset, user));
  }

  lemma InFlightEffect(b: Book, w: Withdrawal, asset: string)
    requires RowOk(b, w)
    ensures RowEffect(b, w, IsKey(SystemKey(asset, PayoutsInFlight))) == InFlightOf(b, asset)(w)
  {
    hide PostedTo;
  }

  /** The in-flight balance is what was committed to payouts that neither settled nor were
      reversed. */
  lemma InFlightIsOutstandingCommitments(cfg: Config, s: Sys, asset: string)
    requires Reachable(cfg, s)
    ensures Balance(s.book, SystemKey(asset, PayoutsInFlight)) == Sum(s.ws, InFlightOf(s.book, asset))
  {
    hide Reachable, FlowInv, Books, Consistent, RowOk, PostedTo, RowEffect, D.DepositOk;
    var sel := IsKey(SystemKey(asset, PayoutsInFlight));
    ReachableKept(cfg, s, sel);
    forall i | 0 <= i < |s.ws| ensures RowEffect(s.book, s.ws[i], sel) == InFlightOf(s.book, asset)(s.ws[i]) {
      assert RowInv(s.book, s.ws[i]);
      InFlightEffect(s.book, s.ws[i], asset);
    }
    BooksRead(s, sel, InFlightOf(s.book, asset), Nothing());
    NothingAdds(s.deposits);
    BalanceIsSelected(s.book, SystemKey(asset, PayoutsInFlight));
  }

  /** Every withdrawal holds once, settles only what it submitted, and never both settles and
      gives its hold back. */
  lemma NeverSettledAndReleased(cfg: Config, s: Sys, i: nat)
    requires Reachable(cfg, s) && i < |s.ws|
    ensures var w := s.ws[i];
      w.hold.Some? && (w.settle.Some? ==> w.submit.Some? && w.release.None?)
  {
    hide Reachable, FlowInv, Books, Consistent, PostedTo, D.DepositOk;
    ReachableKept(cfg, s, _ => true);
    assert RowInv(s.book, s.ws[i]);
  }

  /** In every reachable state the independent checker accepts the books: entries balance, every
      balance is the sum of its postings, and every asset sums to zero. */
  lemma CheckerAcceptsReachableBooks(cfg: Config, s: Sys)
    requires Reachable(cfg, s)
    ensures var b := s.book; EntriesBalance(b) && BalancesDerive(b) && AssetsBalance(b)
  {
    hide Reachable, FlowInv, Books, RowInv, D.DepositOk, AssetsBalance, Derived, Total;
    ReachableKept(cfg, s, _ => true);
    var b := s.book;
    assert forall k :: 0 <= k < |b.entries| ==> EntryOk(b.accounts, b.entries[k]);
    AssetCheckFollows(b);
  }

  // -- conservation -----------------------------------------------------------------------------

  function UserSel(asset: string, user: string): AccountKey -> bool {
    Either(IsKey(AvailableKey(asset, user)), IsKey(HoldKey(asset, user)))
  }

  function CreditedEffect(asset: string, user: string): D.Deposit -> int {
    (d: D.Deposit) => -CreditedFor(asset, user)(d)
  }

  lemma UserEffect(b: Book, w: Withdrawal, asset: string, user: string)
    requires RowOk(b, w)
    ensures RowEffect(b, w, UserSel(asset, user)) == SettledFor(asset, user)(w)
  {
    hide PostedTo;
  }

  lemma CreditedIsEffect(d: D.Deposit, asset: string, user: string)
    ensures D.DepositEffect(d, UserSel(asset, user)) == CreditedEffect(asset, user)(d)
  {
    assert IsKey(AvailableKey(asset, user))(AvailableKey(d.asset, d.user)) <==> d.asset == asset && d.user == user;
    assert UserSel(asset, user)(AvailableKey(d.asset, d.user)) <==> d.asset == asset && d.user == user;
    assert !UserSel(asset, user)(SystemKey(d.asset, HotWallet));
    assert CreditedEffect(asset, user)(d) == -CreditedFor(asset, user)(d);
    assert CreditedFor(asset, user)(d) == if d.asset == asset && d.user == user then d.credited else 0;
  }

  /** Available plus held is what was credited less the gross of what settled: nothing a user
      owns appears or disappears on the way, in either fee mode. */
  lemma UserFundsConserved(cfg: Config, s: Sys, asset: string, user: string)
    requires Reachable(cfg, s)
    ensures -Balance(s.book, AvailableKey(asset, user)) - Balance(s.book, HoldKey(asset, user))
        == Sum(s.deposits, CreditedFor(asset, user)) - Sum(s.ws, SettledFor(asset, user))
  {
    hide Reachable, FlowInv, Books, Consistent, RowOk, PostedTo, RowEffect, D.DepositOk;
    var sel := UserSel(asset, user);
    ReachableKept(cfg, s, sel);
    forall i | 0 <= i < |s.ws| ensures RowEffect(s.book, s.ws[i], sel) == SettledFor(asset, user)(s.ws[i]) {
      assert RowInv(s.book, s.ws[i]);
      UserEffect(s.book, s.ws[i], asset, user);
    }
    forall j | 0 <= j < |s.deposits| ensures D.DepositEffect(s.deposits[j], sel) == CreditedEffect(asset, user)(s.deposits[j]) {
      CreditedIsEffect(s.deposits[j], asset, user);
    }
    BooksRead(s, sel, SettledFor(asset, user), CreditedEffect(asset, user));
    SumNegates(s.deposits, CreditedFor(asset, user), CreditedEffect(asset, user));
    SelEither(s.book.accounts, IsKey(AvailableKey(asset, user)), IsKey(HoldKey(asset, user)));
    BalanceIsSelected(s.book, AvailableKey(asset, user));
    BalanceIsSelected(s.book, HoldKey(asset, user));
  }

  function CustodySel(asset: string): AccountKey -> bool {
    Either(OfKind(asset, HotWallet), OfKind(asset, PayoutsInFlight))
  }

  function ObligationSel(asset: string): AccountKey -> bool {
    Either(OfKind(asset, UserAvailable), OfKind(asset, UserHold))
  }

  lemma MarginEffect(b: Book, w: Withdrawal, asset: string)
    requires RowOk(b, w)
    ensures RowEffect(b, w, Either(CustodySel(asset), ObligationSel(asset))) == MarginOf(b, asset)(w)
  {
    hide PostedTo;
  }

  /** Custody exceeds what users are owed by exactly the fees charged less the network fees
      booked, whoever pays the network fee. */
  lemma CustodyExceedsObligationsByMargin(cfg: Config, s: Sys, asset: string)
    requires Reachable(cfg, s)
    ensures var accounts := s.book.accounts;
      var custody := KindSum(accounts, asset, HotWallet) + KindSum(accounts, asset, PayoutsInFlight);
      var owed := -KindSum(accounts, asset, UserAvailable) - KindSum(accounts, asset, UserHold);
      custody - owed == Sum(s.ws, MarginOf(s.book, asset))
  {
    hide Reachable, FlowInv, Books, Consistent, RowOk, PostedTo, RowEffect, D.DepositOk;
    var accounts := s.book.accounts;
    var sel := Either(CustodySel(asset), ObligationSel(asset));
    ReachableKept(cfg, s, sel);
    forall i | 0 <= i < |s.ws| ensures RowEffect(s.book, s.ws[i], sel) == MarginOf(s.book, asset)(s.ws[i]) {
      assert RowInv(s.book, s.ws[i]);
      MarginEffect(s.book, s.ws[i], asset);
    }
    BooksRead(s, sel, MarginOf(s.book, asset), Nothing());
    NothingAdds(s.deposits);
    SelEither(accounts, CustodySel(asset), ObligationSel(asset));
    SelEither(accounts, OfKind(asset, HotWallet), OfKind(asset, PayoutsInFlight));
    SelEither(accounts, OfKind(asset, UserAvailable), OfKind(asset, UserHold));
  }

  // -- reserve --------------------------------------------------------------------------------------

  function WalletSel(asset: string): AccountKey -> bool {
    Either(OfKind(asset, HotWallet), OfKind(asset, UserAvailable))
  }

  lemma ReserveEffect(b: Book, w: Withdrawal, asset: string)
    requires RowOk(b, w)
    ensures RowEffect(b, w, WalletSel(asset)) == ReserveOf(b, asset)(w)
  {
    hide PostedTo;
  }

  lemma ReserveOfInvariant(s: Sys, asset: string)
    requires LedgerInv(s) && Books(s, WalletSel(asset))
    ensures Balance(s.book, SystemKey(asset, HotWallet)) + KindSum(s.book.accounts, asset, UserAvailable)
         == Sum(s.ws, ReserveOf(s.book, asset))
  {
    hide Books, Consistent, RowOk, PostedTo, RowEffect, D.DepositOk;
    forall i | 0 <= i < |s.ws| ensures RowEffect(s.book, s.ws[i], WalletSel(asset)) == ReserveOf(s.book, asset)(s.ws[i]) {
      assert RowInv(s.book, s.ws[i]);
      ReserveEffect(s.book, s.ws[i], asset);
    }
    BooksRead(s, WalletSel(asset), ReserveOf(s.book, asset), Nothing());
    NothingAdds(s.deposits);
    SelEither(s.book.accounts, OfKind(asset, HotWallet), OfKind(asset, UserAvailable));
    SystemKindIsOne(s.book, asset, HotWallet);
  }

  /** The hot wallet holds what users have available, plus the whole of every unsubmitted hold,
      plus what each flight keeps back, plus what each settlement earned. */
  lemma HotWalletDecomposes(cfg: Config, s: Sys, asset: string)
    requires Reachable(cfg, s)
    ensures Balance(s.book, SystemKey(asset, HotWallet))
        == -KindSum(s.book.accounts, asset, UserAvailable) + Sum(s.ws, ReserveOf(s.book, asset))
  {
    hide Reachable, LedgerInv, FlowInv, Books;
    ReachableKept(cfg, s, WalletSel(asset));
    ReserveOfInvariant(s, asset);
  }
}
