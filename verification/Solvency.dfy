/** The ledger side of full reserve: a balance CHECK never refuses a withdrawal step. */
module Solvency {
  import opened Texts
  import opened Wrappers
  import opened Sums
  import opened Ledger
  import opened Fees
  import opened Withdrawals
  import opened WithdrawalBooks
  import opened MoneyPath
  import opened MoneyInvariants
  import opened MoneyFlow
  import opened MoneyRuns
  import opened LedgerChecker
  import opened Custody
  import opened Reserve

  const SHORT := LedgerFault(InsufficientFunds)

  // -- entries that no CHECK rejects ---------------------------------------------------------

  /** Posting `amount` to the account of this key leaves its balance on the side it must have. */
  predicate Affords(b: Book, key: AccountKey, amount: int) {
    SignOk(key.kind, Balance(b, key) + amount)
  }

  lemma BalanceAt(b: Book, id: nat)
    requires Consistent(b) && id < |b.accounts|
    ensures Balance(b, b.accounts[id].key) == b.accounts[id].balance
  {
  }

  lemma {:induction false} DeltaOfOthers(ps: seq<Posting>, id: int)
    requires forall p :: p in ps ==> p.account != id
    ensures Delta(ps, id) == 0
  {
    if ps != [] {
      assert ps[|ps| - 1] in ps;
      DeltaOfOthers(ps[..|ps| - 1], id);
    }
  }

  /** One posting per account. */
  predicate OncePerAccount(ps: seq<Posting>) {
    forall i, j :: 0 <= i < j < |ps| ==> ps[i].account != ps[j].account
  }

  lemma {:induction false} DeltaOfOwn(ps: seq<Posting>, i: nat)
    requires OncePerAccount(ps) && i < |ps|
    ensures Delta(ps, ps[i].account) == ps[i].amount
  {
    var n := |ps| - 1;
    if i == n {
      DeltaOfOthers(ps[..n], ps[n].account);
    } else {
      DeltaOfOwn(ps[..n], i);
    }
  }

  /** An entry that every account it touches can afford is never refused for lack of funds. */
  lemma NeverShort(b: Book, e: Entry)
    requires Consistent(b) && OncePerAccount(e.postings)
    requires forall i :: 0 <= i < |e.postings| && ValidId(b.accounts, e.postings[i].account) ==>
      Affords(b, b.accounts[e.postings[i].account].key, e.postings[i].amount)
    ensures PostFor(b, e) != Failure(SHORT)
  {
    forall i | 0 <= i < |b.accounts| && Delta(e.postings, i) != 0
      ensures SignOk(b.accounts[i].key.kind, b.accounts[i].balance + Delta(e.postings, i))
    {
      DeltaAt(b, e, i);
    }
  }

  lemma DeltaAt(b: Book, e: Entry, i: nat)
    requires Consistent(b) && OncePerAccount(e.postings) && i < |b.accounts| && Delta(e.postings, i) != 0
    requires forall k :: 0 <= k < |e.postings| && ValidId(b.accounts, e.postings[k].account) ==>
      Affords(b, b.accounts[e.postings[k].account].key, e.postings[k].amount)
    ensures SignOk(b.accounts[i].key.kind, b.accounts[i].balance + Delta(e.postings, i))
  {
    hide Consistent, SignOk, Balance;
    if forall p :: p in e.postings ==> p.account != i {
      DeltaOfOthers(e.postings, i);
    } else {
      var p :| p in e.postings && p.account == i;
      var k :| 0 <= k < |e.postings| && e.postings[k] == p;
      DeltaOfOwn(e.postings, k);
      BalanceAt(b, i);
      assert Affords(b, b.accounts[e.postings[k].account].key, e.postings[k].amount);
    }
  }

  /** Provisioning a user's accounts changes no balance. */
  lemma ProvisioningMovesNothing(b: Book, asset: string, user: string, key: AccountKey)
    requires Consistent(b)
    ensures Balance(UserAccounts(b, asset, user).0, key) == Balance(b, key)
  {
    hide Consistent, Extends, Balance, UserAccounts;
    UserAccountsStep(b, asset, user, IsKey(key));
    BalanceIsSelected(b, key);
    BalanceIsSelected(UserAccounts(b, asset, user).0, key);
  }

  // -- what the books have room for --------------------------------------------------------------

  /** A sound state of a run in which users pay the network fee, with its books read off for
      one asset and user. */
  ghost predicate Solvent(s: Sys, asset: string, user: string) {
    && LedgerInv(s) && CoverInv(s)
    && Books(s, IsKey(HoldKey(asset, user))) && Books(s, IsKey(SystemKey(asset, PayoutsInFlight))) && Books(s, WalletSel(asset))
  }

  lemma HoldRoom(s: Sys, i: nat)
    requires i < |s.ws| && Solvent(s, s.ws[i].asset, s.ws[i].user) && Outstanding(s.ws[i])
    ensures Balance(s.book, HoldKey(s.ws[i].asset, s.ws[i].user)) <= -s.ws[i].gross
  {
    hide Books, Consistent, RowOk, PostedTo, RowEffect, CoverInv, Balance;
    var w := s.ws[i];
    var held := HeldFor(w.asset, w.user);
    var sel := IsKey(HoldKey(w.asset, w.user));
    forall j | 0 <= j < |s.ws| ensures RowEffect(s.book, s.ws[j], sel) == Flipped(held)(s.ws[j]) && held(s.ws[j]) >= 0 {
      RowHere(s, j);
      HeldEffect(s.book, s.ws[j], w.asset, w.user);
      GrossPositive(s.book, s.ws[j]);
    }
    BooksRead(s, sel, Flipped(held), Nothing());
    NothingAdds(s.deposits);
    FlippedAdds(s.ws, held);
    SumCovers(s.ws, held, i);
    GrossPositive(s.book, w);
    BalanceIsSelected(s.book, HoldKey(w.asset, w.user));
  }

  lemma GrossPositive(b: Book, w: Withdrawal)
    requires RowOk(b, w)
    ensures w.gross > 0 && w.hold.Some? && (w.submit.Some? ==> Committed(b, w) > 0)
  {
    hide PostedTo;
  }

  lemma InFlightRoom(s: Sys, i: nat)
    requires i < |s.ws| && Solvent(s, s.ws[i].asset, s.ws[i].user) && Outstanding(s.ws[i]) && s.ws[i].submit.Some?
    ensures Balance(s.book, SystemKey(s.ws[i].asset, PayoutsInFlight)) >= Committed(s.book, s.ws[i])
  {
    hide Books, Consistent, RowOk, PostedTo, RowEffect, CoverInv, Balance, Committed;
    var w := s.ws[i];
    var flying := InFlightOf(s.book, w.asset);
    var sel := IsKey(SystemKey(w.asset, PayoutsInFlight));
    forall j | 0 <= j < |s.ws| ensures RowEffect(s.book, s.ws[j], sel) == flying(s.ws[j]) && flying(s.ws[j]) >= 0 {
      RowHere(s, j);
      InFlightEffect(s.book, s.ws[j], w.asset);
      GrossPositive(s.book, s.ws[j]);
    }
    BooksRead(s, sel, flying, Nothing());
    NothingAdds(s.deposits);
    SumCovers(s.ws, flying, i);
    BalanceIsSelected(s.book, SystemKey(w.asset, PayoutsInFlight));
  }

  lemma {:induction false} AvailableIsOwed(accounts: seq<Account>, asset: string)
    requires forall i :: 0 <= i < |accounts| ==> SignOk(accounts[i].key.kind, accounts[i].balance)
    ensures KindSum(accounts, asset, UserAvailable) <= 0
  {
    if accounts != [] {
      AvailableIsOwed(accounts[..|accounts| - 1], asset);
    }
  }

  /** The hot wallet has room for everything the row has not yet taken out of it. */
  lemma HotRoom(s: Sys, i: nat)
    requires i < |s.ws| && Solvent(s, s.ws[i].asset, s.ws[i].user)
    ensures Balance(s.book, SystemKey(s.ws[i].asset, HotWallet)) >= ReserveOf(s.book, s.ws[i].asset)(s.ws[i])
  {
    hide Books, RowOk, PostedTo, RowEffect, CoverInv, Balance, ReserveOf, KindSum;
    ReserveOfInvariant(s, s.ws[i].asset);
    ReserveNonNegative(s, s.ws[i].asset);
    SumCovers(s.ws, ReserveOf(s.book, s.ws[i].asset), i);
    AvailableIsOwed(s.book.accounts, s.ws[i].asset);
  }

  lemma OwnSign(b: Book, key: AccountKey)
    requires Consistent(b)
    ensures SignOk(key.kind, Balance(b, key))
  {
  }

  // -- the four entries ---------------------------------------------------------------------------

  lemma SubmitNotShort(s: Sys, i: nat, w: Withdrawal, q: FeeQuote)
    requires i < |s.ws| && Solvent(s, s.ws[i].asset, s.ws[i].user)
    requires w.asset == s.ws[i].asset && s.ws[i].submit.None? && Outstanding(s.ws[i]) && Covered(q, s.ws[i].gross)
    ensures PostSubmitEntry(s.book, i, w, q) != Failure(SHORT)
  {
    hide Solvent, Consistent, PostFor, Balance, Affords;
    RowConsistent(s, i);
    var b := s.book;
    if SystemAccount(b, w.asset, HotWallet).Success? && SystemAccount(b, w.asset, PayoutsInFlight).Success? {
      var hot := SystemAccount(b, w.asset, HotWallet).value;
      var inFlight := SystemAccount(b, w.asset, PayoutsInFlight).value;
      HotRoom(s, i);
      OwnSign(b, SystemKey(w.asset, PayoutsInFlight));
      AffordsDebit(b, SystemKey(w.asset, HotWallet), -q.Committed());
      AffordsDebit(b, SystemKey(w.asset, PayoutsInFlight), q.Committed());
      NeverShort(b, Entry(WithdrawalSubmit, w.asset, WithdrawalRef("withdrawal_submit", i),
                          [Posting(inFlight, q.Committed()), Posting(hot, -q.Committed())], None));
    }
  }

  lemma RowConsistent(s: Sys, i: nat)
    requires i < |s.ws| && Solvent(s, s.ws[i].asset, s.ws[i].user)
    ensures Consistent(s.book) && RowInv(s.book, s.ws[i]) && CoverRow(s.book, s.ws[i])
  {
  }

  lemma AffordsDebit(b: Book, key: AccountKey, amount: int)
    requires !CreditNormal(key.kind) && Balance(b, key) + amount >= 0
    ensures Affords(b, key, amount)
  {
  }

  lemma AffordsCredit(b: Book, key: AccountKey, amount: int)
    requires CreditNormal(key.kind) && Balance(b, key) + amount <= 0
    ensures Affords(b, key, amount)
  {
  }

  lemma UnsubmitNotShort(s: Sys, i: nat, w: Withdrawal)
    requires i < |s.ws| && Solvent(s, s.ws[i].asset, s.ws[i].user) && Outstanding(s.ws[i])
    requires w == s.ws[i].(status := w.status)
    ensures PostUnsubmitEntry(s.book, i, w) != Failure(SHORT)
  {
    hide Solvent, Consistent, PostFor, Balance, Affords, PostedTo, RowOk;
    RowConsistent(s, i);
    var b := s.book;
    if w.submit.Some? && SystemAccount(b, w.asset, HotWallet).Success? && SystemAccount(b, w.asset, PayoutsInFlight).Success? {
      var hot := SystemAccount(b, w.asset, HotWallet).value;
      var inFlight := SystemAccount(b, w.asset, PayoutsInFlight).value;
      var c := Committed(b, w);
      InFlightRoom(s, i);
      GrossPositive(b, s.ws[i]);
      OwnSign(b, SystemKey(w.asset, HotWallet));
      AffordsDebit(b, SystemKey(w.asset, HotWallet), c);
      AffordsDebit(b, SystemKey(w.asset, PayoutsInFlight), -c);
      NeverShort(b, Entry(Reversal, w.asset, WithdrawalRef("withdrawal_submit_reversal", i),
                          [Posting(hot, c), Posting(inFlight, -c)], w.submit));
    }
  }

  lemma ReleaseEntryNotShort(b: Book, i: nat, w: Withdrawal)
    requires Consistent(b) && w.gross > 0 && Balance(b, HoldKey(w.asset, w.user)) <= -w.gross
    ensures PostReleaseEntry(b, i, w) != Failure(SHORT)
  {
    hide Consistent, PostFor, Balance, Affords, UserAccounts;
    var (b1, available, hold) := UserAccounts(b, w.asset, w.user);
    UserAccountsStep(b, w.asset, w.user, _ => true);
    ProvisioningMovesNothing(b, w.asset, w.user, HoldKey(w.asset, w.user));
    OwnSign(b1, AvailableKey(w.asset, w.user));
    AffordsCredit(b1, HoldKey(w.asset, w.user), w.gross);
    AffordsCredit(b1, AvailableKey(w.asset, w.user), -w.gross);
    NeverShort(b1, Entry(WithdrawalRelease, w.asset, WithdrawalRef("withdrawal_release", i),
                         [Posting(hold, w.gross), Posting(available, -w.gross)], None));
  }

  lemma UnsubmitKeepsHold(b: Book, i: nat, w: Withdrawal)
    requires Consistent(b) && PostUnsubmitEntry(b, i, w).Success?
    ensures Consistent(PostUnsubmitEntry(b, i, w).value)
    ensures Balance(PostUnsubmitEntry(b, i, w).value, HoldKey(w.asset, w.user)) == Balance(b, HoldKey(w.asset, w.user))
  {
    hide Consistent, PostUnsubmitEntry, Balance, PostedTo, Extends, NoDepositCredits;
    var key := HoldKey(w.asset, w.user);
    UnsubmitStep(b, i, w, IsKey(key));
    BalanceIsSelected(b, key);
    BalanceIsSelected(PostUnsubmitEntry(b, i, w).value, key);
  }

  /** Giving a hold back, from any status, never lacks the funds it returns. */
  lemma ReleaseNotShort(s: Sys, i: nat, w: Withdrawal, actor: string, attestation: Option<string>)
    requires i < |s.ws| && Solvent(s, s.ws[i].asset, s.ws[i].user) && w == s.ws[i].(status := w.status)
    requires w.status == s.ws[i].status || (w.status == Rejected && Outstanding(s.ws[i]))
    ensures ReleaseHold(s.book, i, w, actor, attestation) != Failure(SHORT)
  {
    hide Solvent, Consistent, Balance, PostUnsubmitEntry, PostReleaseEntry, Blank, Strip, CoverRow, PostedTo;
    RowConsistent(s, i);
    if Outstanding(s.ws[i]) {
      UnsubmitNotShort(s, i, w);
      HoldRoom(s, i);
      GrossPositive(s.book, s.ws[i]);
      if PostUnsubmitEntry(s.book, i, w).Success? {
        UnsubmitKeepsHold(s.book, i, w);
        ReleaseEntryNotShort(PostUnsubmitEntry(s.book, i, w).value, i, w);
      }
    }
  }

  // -- the settle entry ---------------------------------------------------------------------------

  lemma OneIfDelta(ps: seq<Posting>, condition: bool, p: Posting, id: int)
    ensures Delta(ps + OneIf(condition, p), id) == Delta(ps, id) + if condition then AmountFor(id)(p) else 0
  {
    if condition {
      SumAppend(ps, p, AmountFor(id));
    } else {
      assert ps + OneIf(condition, p) == ps;
    }
  }

  lemma SettleDelta(w: Withdrawal, committed: int, walletFee: int,
                    hold: nat, inFlight: nat, expense: nat, income: nat, hot: nat, id: int)
    ensures Delta(SettlePostings(w, committed, walletFee, hold, inFlight, expense, income, hot), id)
         == AmountFor(id)(Posting(hold, w.gross)) + AmountFor(id)(Posting(inFlight, -committed))
          + AmountFor(id)(Posting(expense, walletFee)) + AmountFor(id)(Posting(income, -SettleFee(w)))
          + AmountFor(id)(Posting(hot, -(walletFee - (committed - SettleNet(w)))))
  {
    var drift := walletFee - (committed - SettleNet(w));
    var first := [Posting(hold, w.gross), Posting(inFlight, -committed)];
    var second := first + OneIf(walletFee != 0, Posting(expense, walletFee));
    var third := second + OneIf(SettleFee(w) != 0, Posting(income, -SettleFee(w)));
    SumAppend([], first[0], AmountFor(id));
    SumAppend([first[0]], first[1], AmountFor(id));
    assert [] + [first[0]] == [first[0]] && [first[0]] + [first[1]] == first;
    OneIfDelta(first, walletFee != 0, Posting(expense, walletFee), id);
    OneIfDelta(second, SettleFee(w) != 0, Posting(income, -SettleFee(w)), id);
    OneIfDelta(third, drift != 0, Posting(hot, -drift), id);
  }

  /** Room for a settlement: every account it touches can afford its line. */
  ghost predicate RoomToSettle(b: Book, w: Withdrawal, committed: int, walletFee: int) {
    && Affords(b, HoldKey(w.asset, w.user), w.gross)
    && Affords(b, SystemKey(w.asset, PayoutsInFlight), -committed)
    && Affords(b, SystemKey(w.asset, NetworkFeeExpense), walletFee)
    && Affords(b, SystemKey(w.asset, FeeIncome), -SettleFee(w))
    && Affords(b, SystemKey(w.asset, HotWallet), -(walletFee - (committed - SettleNet(w))))
  }

  /** The rows a settle entry posts to. */
  ghost predicate SettleRows(b: Book, w: Withdrawal, drift: int, hold: nat, inFlight: nat, expense: nat, income: nat, hot: nat) {
    && hold < |b.accounts| && b.accounts[hold].key == HoldKey(w.asset, w.user)
    && inFlight < |b.accounts| && b.accounts[inFlight].key == SystemKey(w.asset, PayoutsInFlight)
    && expense < |b.accounts| && b.accounts[expense].key == SystemKey(w.asset, NetworkFeeExpense)
    && income < |b.accounts| && b.accounts[income].key == SystemKey(w.asset, FeeIncome)
    && (drift != 0 ==> hot < |b.accounts| && b.accounts[hot].key == SystemKey(w.asset, HotWallet))
  }

  lemma SettleSign(b: Book, w: Withdrawal, committed: int, walletFee: int,
                   hold: nat, inFlight: nat, expense: nat, income: nat, hot: nat, i: nat)
    requires Consistent(b) && RoomToSettle(b, w, committed, walletFee) && i < |b.accounts|
    requires SettleRows(b, w, walletFee - (committed - SettleNet(w)), hold, inFlight, expense, income, hot)
    requires Delta(SettlePostings(w, committed, walletFee, hold, inFlight, expense, income, hot), i) != 0
    ensures SignOk(b.accounts[i].key.kind,
                   b.accounts[i].balance + Delta(SettlePostings(w, committed, walletFee, hold, inFlight, expense, income, hot), i))
  {
    hide Consistent, SignOk, Balance, SettlePostings, SettleNet, SettleFee;
    SettleDelta(w, committed, walletFee, hold, inFlight, expense, income, hot, i);
    BalanceAt(b, i);
  }

  lemma SettleEntryNotShort(b: Book, w: Withdrawal, committed: int, walletFee: int,
                            hold: nat, inFlight: nat, expense: nat, income: nat, hot: nat, e: Entry)
    requires Consistent(b) && RoomToSettle(b, w, committed, walletFee)
    requires e.postings == SettlePostings(w, committed, walletFee, hold, inFlight, expense, income, hot)
    requires SettleRows(b, w, walletFee - (committed - SettleNet(w)), hold, inFlight, expense, income, hot)
    ensures PostFor(b, e) != Failure(SHORT)
  {
    hide Consistent, SettlePostings, RoomToSettle, SettleRows;
    forall i | 0 <= i < |b.accounts| && Delta(e.postings, i) != 0
      ensures SignOk(b.accounts[i].key.kind, b.accounts[i].balance + Delta(e.postings, i))
    {
      SettleSign(b, w, committed, walletFee, hold, inFlight, expense, income, hot, i);
    }
  }

  lemma SettleRoom(s: Sys, i: nat, walletFee: int)
    requires i < |s.ws| && Solvent(s, s.ws[i].asset, s.ws[i].user) && Outstanding(s.ws[i]) && s.ws[i].submit.Some?
    requires 0 <= walletFee <= SettleFee(s.ws[i])
    ensures RoomToSettle(s.book, s.ws[i], Committed(s.book, s.ws[i]), walletFee)
  {
    hide Solvent, Consistent, Balance, PostedTo;
    var w := s.ws[i];
    RowConsistent(s, i);
    HoldRoom(s, i);
    InFlightRoom(s, i);
    HotRoom(s, i);
    OwnSign(s.book, SystemKey(w.asset, NetworkFeeExpense));
    OwnSign(s.book, SystemKey(w.asset, FeeIncome));
  }

  lemma RoomStays(b: Book, w: Withdrawal, committed: int, walletFee: int)
    requires Consistent(b) && RoomToSettle(b, w, committed, walletFee)
    ensures RoomToSettle(UserAccounts(b, w.asset, w.user).0, w, committed, walletFee)
  {
    hide Consistent, Balance, UserAccounts;
    ProvisioningMovesNothing(b, w.asset, w.user, HoldKey(w.asset, w.user));
    ProvisioningMovesNothing(b, w.asset, w.user, SystemKey(w.asset, PayoutsInFlight));
    ProvisioningMovesNothing(b, w.asset, w.user, SystemKey(w.asset, NetworkFeeExpense));
    ProvisioningMovesNothing(b, w.asset, w.user, SystemKey(w.asset, FeeIncome));
    ProvisioningMovesNothing(b, w.asset, w.user, SystemKey(w.asset, HotWallet));
  }

  lemma SettleNotShort(s: Sys, i: nat, w: Withdrawal, actual: Option<int>)
    requires i < |s.ws| && Solvent(s, s.ws[i].asset, s.ws[i].user) && Outstanding(s.ws[i])
    requires w == s.ws[i].(txid := w.txid) && (actual.Some? ==> actual.value <= SettleFee(w))
    ensures PostSettleEntry(s.book, i, w, actual) != Failure(SHORT)
  {
    hide Solvent, Consistent, PostFor, Balance, UserAccounts, SettlePostings, PostedTo, RoomToSettle;
    var b := s.book;
    RowConsistent(s, i);
    if w.submit.Some? && (actual.Some? ==> actual.value >= 0) {
      var committed, walletFee := Committed(b, w), SettledFee(b, w, actual);
      SettleRoom(s, i, walletFee);
      SameRoom(b, s.ws[i], w, committed, walletFee);
      RoomStays(b, w, committed, walletFee);
      SettleFromRoom(b, i, w, actual);
    }
  }

  lemma SameRoom(b: Book, v: Withdrawal, w: Withdrawal, committed: int, walletFee: int)
    requires RoomToSettle(b, v, committed, walletFee) && w == v.(txid := w.txid)
    ensures RoomToSettle(b, w, committed, walletFee)
  {
  }

  lemma SettleFromRoom(b: Book, i: nat, w: Withdrawal, actual: Option<int>)
    requires Consistent(b) && w.submit.Some?
    requires RoomToSettle(UserAccounts(b, w.asset, w.user).0, w, Committed(b, w), SettledFee(b, w, actual))
    ensures PostSettleEntry(b, i, w, actual) != Failure(SHORT)
  {
    hide Consistent, PostFor, UserAccounts, SettlePostings, PostedTo, RoomToSettle;
    var committed, walletFee := Committed(b, w), SettledFee(b, w, actual);
    var (b1, _, hold) := UserAccounts(b, w.asset, w.user);
    UserAccountsStep(b, w.asset, w.user, _ => true);
    var inFlight := SystemAccount(b1, w.asset, PayoutsInFlight);
    var expense := SystemAccount(b1, w.asset, NetworkFeeExpense);
    var income := SystemAccount(b1, w.asset, FeeIncome);
    var hot := if walletFee != committed - SettleNet(w) then SystemAccount(b1, w.asset, HotWallet) else Success(0);
    if inFlight.Success? && expense.Success? && income.Success? && hot.Success? {
      SettleEntryNotShort(b1, w, committed, walletFee, hold, inFlight.value, expense.value, income.value, hot.value,
        Entry(WithdrawalSettle, w.asset, WithdrawalRef("withdrawal_settle", i),
              SettlePostings(w, committed, walletFee, hold, inFlight.value, expense.value, income.value, hot.value), None));
    }
  }

  // -- every step -----------------------------------------------------------------------------------

  /** Does this step roll back because a balance CHECK refused one of its entries? */
  predicate Refused(cfg: Config, s: Sys, step: Step) {
    match step
    case Hold(req, now, createdAt) => PlaceHold(s.book, s.ws, cfg.assets, req, now, createdAt) == Failure(SHORT)
    case ApproveRow(i, policy, token) =>
      i < |s.ws| && ApprovedOutcome(s.book, i, s.ws[i], policy, token) == Failure(SHORT)
    case RejectRow(i, actor) => i < |s.ws| && Reject(s.book, i, s.ws[i], actor) == Failure(SHORT)
    case AdminRelease(i, actor, attestation) =>
      i < |s.ws| && ReleaseHold(s.book, i, s.ws[i], actor, Some(attestation)) == Failure(SHORT)
    case Abandon(k, reason) =>
      Working(s, k) && s.workers[k].phase.Claimed?
      && ReleaseHold(s.book, s.workers[k].row, s.ws[s.workers[k].row], ACTOR_NEVER_SUBMITTED, Some(NeverSentProof(reason))) == Failure(SHORT)
    case Record(k) =>
      Working(s, k) && s.workers[k].phase.Answered?
      && RecordSubmission(s.book, s.workers[k].row, s.ws[s.workers[k].row],
                          PayoutRef(s.workers[k].phase.payout), s.workers[k].phase.quote) == Failure(SHORT)
    case ResolveStuck(i) =>
      i < |s.ws| && Stuck(s.ws[i]) && FindMine(s.payouts, i).Some?
      && var p := FindMine(s.payouts, i).value;
         var q := QuoteFromPayout(s.payouts[p].amount, s.ws[i].gross, Decimals(cfg, s.ws[i].asset));
         q.Success? && RecordSubmission(s.book, i, s.ws[i], PayoutRef(p), q.value) == Failure(SHORT)
    case PayoutEvent(i, report, actual) =>
      i < |s.ws| && Correlated(s.ws[i], i, report)
      && ApplyPayoutState(s.book, s.ws, i, s.ws[i], report, actual) == Failure(SHORT)
    case OperatorPoll(i, height, required) =>
      i < |s.ws| && s.ws[i].backend == ManualTron
      && PollManual(s.book, i, s.ws[i], cfg.chain, height, required) == Failure(SHORT)
    case _ => false
  }

  lemma HoldNotShort(b: Book, ws: seq<Withdrawal>, assets: map<string, AssetRow>, req: Request, now: int, createdAt: int)
    requires Consistent(b)
    ensures PlaceHold(b, ws, assets, req, now, createdAt) != Failure(SHORT)
  {
    hide Consistent, PostFor, Balance, Affords, UserAccounts, NeedsManual;
    var (b1, available, hold) := UserAccounts(b, req.asset, req.user);
    UserAccountsStep(b, req.asset, req.user, _ => true);
    BalanceAt(b1, available);
    OwnSign(b1, HoldKey(req.asset, req.user));
    if 0 < req.gross <= -BalanceOf(b1, available) {
      AffordsCredit(b1, AvailableKey(req.asset, req.user), req.gross);
      AffordsCredit(b1, HoldKey(req.asset, req.user), -req.gross);
      forall w: Withdrawal | w.asset == req.asset && w.gross == req.gross
        ensures PostFor(b1, HoldEntry(|ws|, w, available, hold)) != Failure(SHORT)
      {
        NeverShort(b1, HoldEntry(|ws|, w, available, hold));
      }
    }
  }

  lemma RowStepsNotShort(cfg: Config, s: Sys, step: Step, i: nat)
    requires i < |s.ws| && Solvent(s, s.ws[i].asset, s.ws[i].user) && Admissible(s, step) && Deducting(s, step)
    requires match step
      case ApproveRow(j, _, _) => j == i
      case RejectRow(j, _) => j == i
      case AdminRelease(j, _, _) => j == i
      case PayoutEvent(j, _, _) => j == i
      case OperatorPoll(j, _, _) => j == i
      case _ => false
    ensures !Refused(cfg, s, step)
  {
    hide Solvent, Consistent, PostSubmitEntry, PostSettleEntry, ReleaseHold, PostedTo, QuoteFor, TxidFree, Tron.Verdict, CoverRow;
    RowConsistent(s, i);
    var w := s.ws[i];
    match step {
      case ApproveRow(_, policy, token) =>
        if w.backend == ManualTron && QuoteFor(policy, w.gross).Success? && w.status == PendingApproval {
          var q := QuoteFor(policy, w.gross).value;
          QuotesAreSound(policy, w.gross);
          SubmitNotShort(s, i, w.(status := Approved, backendRef := Some(ManualRef(token)), fee := Some(q.fee), net := Some(q.net)), q);
        }
      case RejectRow(_, actor) =>
        if w.status == PendingApproval {
          ReleaseNotShort(s, i, w.(status := Rejected), actor, None);
        }
      case AdminRelease(_, actor, attestation) => ReleaseNotShort(s, i, w, actor, Some(attestation));
      case PayoutEvent(_, report, actual) =>
        var w1 := if report.txid.Some? && w.txid.None? then w.(txid := report.txid) else w;
        if report.state == Completed && w.settle.None? {
          SettleNotShort(s, i, w1, actual);
        }
      case OperatorPoll(_, _, _) =>
        if w.status == Broadcast && w.settle.None? {
          SettleNotShort(s, i, w, None);
        }
    }
  }

  lemma WorkerStepsNotShort(cfg: Config, s: Sys, step: Step, i: nat)
    requires i < |s.ws| && Solvent(s, s.ws[i].asset, s.ws[i].user) && FlowInv(cfg, s)
    requires match step
      case Abandon(k, _) => Working(s, k) && s.workers[k].row == i
      case Record(k) => Working(s, k) && s.workers[k].row == i
      case ResolveStuck(j) => j == i
      case _ => false
    ensures !Refused(cfg, s, step)
  {
    hide Solvent, Consistent, FlowInv, PostSubmitEntry, ReleaseHold, PostedTo, QuoteFromPayout, CoverRow;
    RowConsistent(s, i);
    var w := s.ws[i];
    match step {
      case Abandon(k, reason) => ReleaseNotShort(s, i, w, ACTOR_NEVER_SUBMITTED, Some(NeverSentProof(reason)));
      case Record(k) =>
        if s.workers[k].phase.Answered? {
          AnswerFacts(cfg, s, k);
          AnswerCovered(s, k);
          var q := s.workers[k].phase.quote;
          SubmitNotShort(s, i, w.(backendRef := Some(PayoutRef(s.workers[k].phase.payout)), fee := Some(q.fee), net := Some(q.net)), q);
        }
      case ResolveStuck(_) =>
        if Stuck(w) && FindMine(s.payouts, i).Some? {
          var p := FindMine(s.payouts, i).value;
          var q := PayoutFacts(cfg, s, i, p);
          SubmitNotShort(s, i, w.(backendRef := Some(PayoutRef(p)), fee := Some(q.fee), net := Some(q.net)), q);
        }
    }
  }

  lemma AnswerCovered(s: Sys, k: nat)
    requires Working(s, k) && Solvent(s, s.ws[s.workers[k].row].asset, s.ws[s.workers[k].row].user) && s.workers[k].phase.Answered?
    ensures Covered(s.workers[k].phase.quote, s.ws[s.workers[k].row].gross)
  {
  }

  lemma ReachableIsSolvent(cfg: Config, s: Sys, asset: string, user: string)
    requires ReachableDeducting(cfg, s)
    ensures Solvent(s, asset, user) && FlowInv(cfg, s)
  {
    hide Reachable, ReachableDeducting, LedgerInv, FlowInv, Books, CoverInv;
    ReachableCovers(cfg, s);
    ReachableKept(cfg, s, IsKey(HoldKey(asset, user)));
    ReachableKept(cfg, s, IsKey(SystemKey(asset, PayoutsInFlight)));
    ReachableKept(cfg, s, WalletSel(asset));
  }

  /** The row whose money a step moves. */
  function RowOf(s: Sys, step: Step): Option<nat> {
    match step
    case ApproveRow(i, _, _) => Some(i)
    case RejectRow(i, _) => Some(i)
    case AdminRelease(i, _, _) => Some(i)
    case PayoutEvent(i, _, _) => Some(i)
    case OperatorPoll(i, _, _) => Some(i)
    case ResolveStuck(i) => Some(i)
    case Abandon(k, _) => if Working(s, k) then Some(s.workers[k].row) else None
    case Record(k) => if Working(s, k) then Some(s.workers[k].row) else None
    case _ => None
  }

  /** In deduct mode no hold, submission, settlement, reversal or release is ever refused by a
      balance CHECK, in any reachable state and whatever crashed on the way. */
  lemma NothingIsRefusedForFunds(cfg: Config, s: Sys, step: Step)
    requires ReachableDeducting(cfg, s) && Admissible(s, step) && Deducting(s, step)
    ensures !Refused(cfg, s, step)
  {
    hide ReachableDeducting, FlowInv, Admissible, Deducting, Refused, Solvent;
    var i := RowOf(s, step);
    if i.Some? && i.value < |s.ws| {
      ReachableIsSolvent(cfg, s, s.ws[i.value].asset, s.ws[i.value].user);
      if step.Abandon? || step.Record? || step.ResolveStuck? {
        WorkerStepsNotShort(cfg, s, step, i.value);
      } else {
        RowStepsNotShort(cfg, s, step, i.value);
      }
    } else {
      ReachableIsSolvent(cfg, s, "", "");
      OtherStepsNotShort(cfg, s, step);
    }
  }

  lemma OtherStepsNotShort(cfg: Config, s: Sys, step: Step)
    requires Solvent(s, "", "") && (RowOf(s, step).None? || RowOf(s, step).value >= |s.ws|)
    ensures !Refused(cfg, s, step)
  {
    hide Consistent, PlaceHold, Books, CoverInv;
    if step.Hold? {
      HoldNotShort(s.book, s.ws, cfg.assets, step.req, step.now, step.createdAt);
    }
  }
}
