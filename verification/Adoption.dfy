/** Crash adoption against direct submission: a payout whose answer was lost is recorded from
    what the rail lists, and ends with the books a direct recording would have left. */
module Adoption {
  import opened Wrappers
  import opened Ledger
  import opened Fees
  import opened Withdrawals
  import opened WithdrawalBooks
  import opened MoneyPath
  import opened MoneyInvariants
  import MoneyFlow
  import opened MoneyRuns
  import opened Custody
  import opened Scenarios
  import Amounts

  /** What submitting and settling moves in the end, whatever was estimated on the way. */
  function NetMovement(w: Withdrawal, q: FeeQuote, walletFee: int, sel: AccountKey -> bool): int {
    On(sel, HoldKey(w.asset, w.user), w.gross)
      + On(sel, SystemKey(w.asset, HotWallet), -(q.net + walletFee))
      + On(sel, SystemKey(w.asset, NetworkFeeExpense), walletFee)
      + On(sel, SystemKey(w.asset, FeeIncome), -q.fee)
  }

  function BookedBy(q: FeeQuote, actual: Option<int>): int {
    if actual.Some? then actual.value else q.walletFee
  }

  lemma SharesCancel(w: Withdrawal, q: FeeQuote, walletFee: int, sel: AccountKey -> bool)
    requires w.fee == Some(q.fee) && w.net == Some(q.net)
    ensures CommitShare(w, q.Committed(), sel) + SettleShare(w, q.Committed(), walletFee, sel) == NetMovement(w, q, walletFee, sel)
  {
  }

  /** The estimate cancels out between the submit and the settle entry. */
  lemma SubmitThenSettle(b: Book, ws: seq<Withdrawal>, i: nat, w: Withdrawal, ref: Reference, q: FeeQuote, report: Report,
                         actual: Option<int>, sel: AccountKey -> bool)
    requires Consistent(b) && w.settle.None? && report.state == Completed
    requires RecordSubmission(b, i, w, ref, q).Success?
    requires var (b1, w1) := RecordSubmission(b, i, w, ref, q).value; ApplyPayoutState(b1, ws, i, w1, report, actual).Success?
    ensures var (b1, w1) := RecordSubmission(b, i, w, ref, q).value;
      var (b2, w2) := ApplyPayoutState(b1, ws, i, w1, report, actual).value;
      && Consistent(b2)
      && SelSum(b2.accounts, sel) - SelSum(b.accounts, sel) == NetMovement(w, q, BookedBy(q, actual), sel)
  {
    hide Consistent, Extends, NoDepositCredits, PostedTo, PostSubmitEntry, PostSettleEntry, TxidFree, CommitShare, SettleShare, NetMovement;
    var w0 := w.(backendRef := Some(ref), fee := Some(q.fee), net := Some(q.net));
    PostSubmitStep(b, i, w0, q, sel);
    var (b1, w1) := RecordSubmission(b, i, w, ref, q).value;
    var w1' := if report.txid.Some? && w1.txid.None? then w1.(txid := report.txid) else w1;
    PostSettleStep(b1, i, w1', actual, sel);
    SameMovement(w, w0, w1', q, actual, sel);
  }

  lemma SameMovement(w: Withdrawal, w0: Withdrawal, w1: Withdrawal, q: FeeQuote, actual: Option<int>, sel: AccountKey -> bool)
    requires w0 == w.(backendRef := w0.backendRef, fee := Some(q.fee), net := Some(q.net))
    requires w1 == w0.(status := w1.status, submit := w1.submit, txid := w1.txid)
    ensures CommitShare(w0, q.Committed(), sel) + SettleShare(w1, q.Committed(), BookedBy(q, actual), sel)
         == NetMovement(w, q, BookedBy(q, actual), sel)
  {
    SharesCancel(w1, q, BookedBy(q, actual), sel);
    SharesCancel(w0, q, BookedBy(q, actual), sel);
  }

  /** Are all balances of the two ledgers equal? */
  ghost predicate SameBalances(b: Book, b': Book) {
    forall key :: Balance(b, key) == Balance(b', key)
  }

  lemma BookedFeesDecide(b: Book, d: Book, a: Book, w: Withdrawal, q: FeeQuote, r: FeeQuote, x: int, y: int)
    requires Consistent(d) && Consistent(a) && r.fee == q.fee && r.net == q.net
    requires forall sel :: SelSum(d.accounts, sel) - SelSum(b.accounts, sel) == NetMovement(w, q, x, sel)
    requires forall sel :: SelSum(a.accounts, sel) - SelSum(b.accounts, sel) == NetMovement(w, r, y, sel)
    ensures SameBalances(d, a) <==> x == y
  {
    hide Consistent, Balance;
    forall key ensures Balance(d, key) - Balance(a, key) == NetMovement(w, q, x, IsKey(key)) - NetMovement(w, q, y, IsKey(key)) {
      BalanceIsSelected(d, key);
      BalanceIsSelected(a, key);
      assert SelSum(d.accounts, IsKey(key)) - SelSum(b.accounts, IsKey(key)) == NetMovement(w, q, x, IsKey(key));
      assert SelSum(a.accounts, IsKey(key)) - SelSum(b.accounts, IsKey(key)) == NetMovement(w, r, y, IsKey(key));
    }
    var expense := SystemKey(w.asset, NetworkFeeExpense);
    assert Balance(d, expense) - Balance(a, expense) == x - y;
  }

  // -- the two runs --------------------------------------------------------------------------------

  /** The rail answered and the worker recorded it. */
  function Direct(cfg: Config, s: Sys, k: nat, policy: FeePolicy): Sys {
    Next(cfg, Next(cfg, s, Create(k, policy, true, true)), Record(k))
  }

  /** The payout was created, the answer was lost, and the sweep found it. */
  function Adopted(cfg: Config, s: Sys, k: nat, policy: FeePolicy, i: nat): Sys {
    Next(cfg, Next(cfg, s, Create(k, policy, true, false)), ResolveStuck(i))
  }

  lemma DirectRecords(cfg: Config, s: Sys, k: nat, policy: FeePolicy)
    requires Working(s, k) && s.workers[k].phase.Claimed? && QuoteFor(policy, s.ws[s.workers[k].row].gross).Success?
    ensures var i := s.workers[k].row;
      var q := QuoteFor(policy, s.ws[i].gross).value;
      var r := RecordSubmission(s.book, i, s.ws[i], PayoutRef(|s.payouts|), q);
      Direct(cfg, s, k, policy).book == CommitRow(s, i, r).book && Direct(cfg, s, k, policy).ws == CommitRow(s, i, r).ws
  {
    hide RecordSubmission, QuoteFor, AmountText, NextWithdrawal, NextDeposit;
  }

  lemma AdoptedRecords(cfg: Config, s: Sys, k: nat, policy: FeePolicy)
    requires Working(s, k) && s.workers[k].phase.Claimed? && QuoteFor(policy, s.ws[s.workers[k].row].gross).Success?
    requires Stuck(s.ws[s.workers[k].row]) && 0 < s.ws[s.workers[k].row].gross <= MAX_BIGINT
    requires QuoteFor(policy, s.ws[s.workers[k].row].gross).value.net <= Amounts.MAX_UNITS
    ensures var i := s.workers[k].row;
      var q := QuoteFor(policy, s.ws[i].gross).value;
      var r := RecordSubmission(s.book, i, s.ws[i], PayoutRef(|s.payouts|), FeeQuote(q.fee, q.net, q.fee));
      Adopted(cfg, s, k, policy, i).book == CommitRow(s, i, r).book && Adopted(cfg, s, k, policy, i).ws == CommitRow(s, i, r).ws
  {
    hide RecordSubmission, QuoteFor, AmountText, QuoteFromPayout, NextWithdrawal, NextDeposit;
    var i := s.workers[k].row;
    QuotesAreSound(policy, s.ws[i].gross);
    var q := QuoteFor(policy, s.ws[i].gross).value;
    RebuiltQuote(q.net, s.ws[i].gross, Decimals(cfg, s.ws[i].asset));
    var s1 := Next(cfg, s, Create(k, policy, true, false));
    assert s1.payouts[|s.payouts|] == s1.payouts[|s1.payouts| - 1];
    assert FindMine(s1.payouts, i) == Some(|s.payouts|);
  }

  predicate SettledRow(s: Sys, i: nat) {
    i < |s.ws| && s.ws[i].settle.Some?
  }

  lemma RecordedRowFacts(b: Book, i: nat, w: Withdrawal, ref: Reference, q: FeeQuote)
    requires RecordSubmission(b, i, w, ref, q).Success?
    ensures RecordSubmission(b, i, w, ref, q).value.1.settle == w.settle
  {
    hide Post;
  }

  lemma UnsubmittedCannotSettle(b: Book, ws: seq<Withdrawal>, i: nat, w: Withdrawal, report: Report, actual: Option<int>)
    requires w.submit.None? && w.settle.None?
    ensures ApplyPayoutState(b, ws, i, w, report, actual).Success? ==>
      ApplyPayoutState(b, ws, i, w, report, actual).value.1.settle.None?
  {
    hide Post, UserAccounts, TxidFree;
  }

  /** A settlement that follows a recording moves every selection by the net movement. */
  lemma SettledAfterRecord(cfg: Config, s: Sys, s1: Sys, i: nat, ref: Reference, q: FeeQuote, report: Report, actual: Option<int>)
    requires i < |s.ws| && Consistent(s.book) && s.ws[i].settle.None? && s.ws[i].submit.None? && report.state == Completed
    requires var r := CommitRow(s, i, RecordSubmission(s.book, i, s.ws[i], ref, q)); s1.book == r.book && s1.ws == r.ws
    requires SettledRow(NextWithdrawal(cfg, s1, PayoutEvent(i, report, actual)), i)
    ensures var s2 := NextWithdrawal(cfg, s1, PayoutEvent(i, report, actual));
      && Consistent(s2.book)
      && forall sel :: SelSum(s2.book.accounts, sel) - SelSum(s.book.accounts, sel) == NetMovement(s.ws[i], q, BookedBy(q, actual), sel)
  {
    hide Consistent, RecordSubmission, ApplyPayoutState, NetMovement, Correlated;
    var w := s.ws[i];
    if RecordSubmission(s.book, i, w, ref, q).Failure? {
      UnsubmittedCannotSettle(s.book, s1.ws, i, w, report, actual);
      assert false;
    } else {
      RecordedRowFacts(s.book, i, w, ref, q);
      SubmitThenSettle(s.book, s1.ws, i, w, ref, q, report, actual, _ => true);
      forall sel
        ensures SelSum(NextWithdrawal(cfg, s1, PayoutEvent(i, report, actual)).book.accounts, sel) - SelSum(s.book.accounts, sel)
             == NetMovement(w, q, BookedBy(q, actual), sel)
      {
        SubmitThenSettle(s.book, s1.ws, i, w, ref, q, report, actual, sel);
      }
    }
  }

  /** Once both are settled by the same report, the adopted withdrawal leaves every balance
      where the direct one leaves it exactly when the rail reported its fee or the wallet fee was
      what the user paid. Under deduction of a miner fee the latter always holds. */
  lemma AdoptionRefinesSubmission(cfg: Config, s: Sys, k: nat, i: nat, policy: FeePolicy, q: FeeQuote, report: Report, actual: Option<int>)
    requires LedgerInv(s) && Working(s, k) && s.workers[k] == Worker(i, Claimed) && Stuck(s.ws[i])
    requires QuoteFor(policy, s.ws[i].gross) == Success(q) && q.net <= Amounts.MAX_UNITS && report.state == Completed
    requires SettledRow(NextWithdrawal(cfg, Direct(cfg, s, k, policy), PayoutEvent(i, report, actual)), i)
    requires SettledRow(NextWithdrawal(cfg, Adopted(cfg, s, k, policy, i), PayoutEvent(i, report, actual)), i)
    ensures SameBalances(NextWithdrawal(cfg, Direct(cfg, s, k, policy), PayoutEvent(i, report, actual)).book,
                         NextWithdrawal(cfg, Adopted(cfg, s, k, policy, i), PayoutEvent(i, report, actual)).book)
        <==> actual.Some? || q.walletFee == q.fee
    ensures policy.MinerFee? && !policy.absorb ==> q.walletFee == q.fee
  {
    hide LedgerInv, Direct, Adopted, QuoteFor, RecordSubmission, Consistent, SameBalances, NetMovement, NextWithdrawal, SettledRow;
    StuckFacts(s, i);
    DirectRecords(cfg, s, k, policy);
    AdoptedRecords(cfg, s, k, policy);
    QuotesAreSound(policy, s.ws[i].gross);
    DeductedFee(policy, s.ws[i].gross);
    var r := FeeQuote(q.fee, q.net, q.fee);
    SettledAfterRecord(cfg, s, Direct(cfg, s, k, policy), i, PayoutRef(|s.payouts|), q, report, actual);
    SettledAfterRecord(cfg, s, Adopted(cfg, s, k, policy, i), i, PayoutRef(|s.payouts|), r, report, actual);
    BookedFeesDecide(s.book,
      NextWithdrawal(cfg, Direct(cfg, s, k, policy), PayoutEvent(i, report, actual)).book,
      NextWithdrawal(cfg, Adopted(cfg, s, k, policy, i), PayoutEvent(i, report, actual)).book,
      s.ws[i], q, r, BookedBy(q, actual), BookedBy(r, actual));
  }

  lemma DeductedFee(policy: FeePolicy, gross: int)
    requires QuoteFor(policy, gross).Success?
    ensures policy.MinerFee? && !policy.absorb ==> QuoteFor(policy, gross).value.walletFee == QuoteFor(policy, gross).value.fee
  {
  }

  // -- where they part -----------------------------------------------------------------------------

  const COMPLETION := Report(0, Completed, Some(0), None)

  /** A recorded withdrawal that nothing keeps from being settled. */
  ghost predicate Settleable(b: Book, w: Withdrawal) {
    && Consistent(b) && HasSystemAccounts(b) && w.asset == COIN && w.user == HOLDER && w.gross > 0 && w.submit.Some? && w.settle.None?
    && w.backend == BtcPay && w.backendRef == Some(PayoutRef(0)) && w.txid.None?
    && SettleFee(w) >= 0 && SettleFee(w) + SettleNet(w) == w.gross && Committed(b, w) >= SettleNet(w) && Committed(b, w) > 0
    && Balance(b, HoldKey(COIN, HOLDER)) <= -w.gross && Balance(b, SystemKey(COIN, PayoutsInFlight)) >= Committed(b, w)
    && FindEntry(b.entries, WithdrawalSettle, WithdrawalRef("withdrawal_settle", 0)).None?
  }

  lemma RecordedIsSettleable(cap: nat, units: nat, q: FeeQuote)
    requires 0 < cap <= units <= Amounts.MAX_UNITS && Sound(q, cap) && q.Committed() <= units
    ensures var s := Claiming(cap, units);
      |s.ws| == 1 && var r := RecordSubmission(s.book, 0, s.ws[0], PayoutRef(0), q);
      r.Success? && Settleable(r.value.0, r.value.1)
  {
    hide Claiming, OnHold, Consistent, HasSystemAccounts, Balance, PostSubmitEntry, PostedTo;
    ClaimingIsReady(cap, units);
    var s := Claiming(cap, units);
    var w0 := s.ws[0].(backendRef := Some(PayoutRef(0)), fee := Some(q.fee), net := Some(q.net));
    NotPosted(s.book.entries, WithdrawalSubmit, WithdrawalRef("withdrawal_submit", 0));
    SubmitIsPosted(s.book, w0, q);
    SubmitLeaves(s.book, w0, q);
    var (b1, w1) := RecordSubmission(s.book, 0, s.ws[0], PayoutRef(0), q).value;
    SettleNotPosted(s.book.entries, b1.entries);
    InFlightIsPositive(s.book);
    CommittedStays(b1, PostSubmitEntry(s.book, 0, w0, q).value.1, w1);
  }

  /** Even when the rail does not report its fee. */
  lemma SettleableIsSettled(b: Book, w: Withdrawal)
    requires Settleable(b, w)
    ensures var settled := ApplyPayoutState(b, [w], 0, w, COMPLETION, None); settled.Success? && settled.value.1.settle.Some?
  {
    hide Consistent, HasSystemAccounts, Balance, PostSettleEntry, PostedTo;
    SettleIsPosted(b, w);
    SettleSetsSettle(b, w);
  }

  lemma CommittedStays(b: Book, w: Withdrawal, w': Withdrawal)
    requires w'.submit == w.submit
    ensures Committed(b, w') == Committed(b, w)
  {
  }

  lemma SettleNotPosted(entries: seq<Entry>, entries': seq<Entry>)
    requires HoldPosted(entries) && entries <= entries' && |entries'| == 3 && entries'[2].kind == WithdrawalSubmit
    ensures FindEntry(entries', WithdrawalSettle, WithdrawalRef("withdrawal_settle", 0)).None?
  {
    assert entries'[0] == entries[0] && entries'[1] == entries[1];
  }

  lemma InFlightIsPositive(b: Book)
    requires Consistent(b)
    ensures Balance(b, SystemKey(COIN, PayoutsInFlight)) >= 0
  {
  }

  lemma SettleSetsSettle(b: Book, w: Withdrawal)
    requires PostSettleEntry(b, 0, w, None).Success?
    ensures PostSettleEntry(b, 0, w, None).value.1 == w.(settle := PostSettleEntry(b, 0, w, None).value.1.settle)
    ensures PostSettleEntry(b, 0, w, None).value.1.settle.Some?
  {
    hide Post, UserAccounts, SettlePostings, PostedTo;
  }

  lemma Correlates(b: Book, w: Withdrawal)
    requires Settleable(b, w)
    ensures Correlated(w, 0, COMPLETION)
  {
  }

  lemma SettledByCompletion(cap: nat, units: nat, q: FeeQuote, s1: Sys)
    requires 0 < cap <= units <= Amounts.MAX_UNITS && Sound(q, cap) && q.Committed() <= units
    requires var s := Claiming(cap, units);
      |s.ws| == 1 && var r := CommitRow(s, 0, RecordSubmission(s.book, 0, s.ws[0], PayoutRef(0), q)); s1.book == r.book && s1.ws == r.ws
    ensures SettledRow(NextWithdrawal(OneADay(cap), s1, PayoutEvent(0, COMPLETION, None)), 0)
  {
    hide Claiming, RecordSubmission, ApplyPayoutState;
    RecordedIsSettleable(cap, units, q);
    SettleableIsSettled(s1.book, s1.ws[0]);
    Correlates(s1.book, s1.ws[0]);
    assert s1.ws == [s1.ws[0]];
  }

  /** Whenever the wallet fee is not what the user paid and the rail reports none, the two runs
      part: from this reachable state both settle, and their balances differ. */
  lemma UnreportedFeeParts(cap: nat, units: nat, policy: FeePolicy, q: FeeQuote)
    requires 0 < cap <= units <= Amounts.MAX_UNITS && QuoteFor(policy, cap) == Success(q)
    requires q.walletFee != q.fee && q.Committed() <= units
    ensures var cfg, s := OneADay(cap), Claiming(cap, units);
      && Reachable(cfg, s) && Working(s, 0)
      && var direct := NextWithdrawal(cfg, Direct(cfg, s, 0, policy), PayoutEvent(0, COMPLETION, None));
      var adopted := NextWithdrawal(cfg, Adopted(cfg, s, 0, policy, 0), PayoutEvent(0, COMPLETION, None));
      SettledRow(direct, 0) && SettledRow(adopted, 0) && !SameBalances(direct.book, adopted.book)
  {
    hide Reachable, OnHold, Direct, Adopted, QuoteFor, RecordSubmission, Consistent, SameBalances, NextWithdrawal, SettledRow, LedgerInv, MoneyFlow.FlowInv,
         Books, HasSystemAccounts, Balance;
    var cfg, s := OneADay(cap), Claiming(cap, units);
    ClaimingIsReady(cap, units);
    ReachableKept(cfg, s, _ => true);
    QuotesAreSound(policy, cap);
    DirectRecords(cfg, s, 0, policy);
    AdoptedRecords(cfg, s, 0, policy);
    SettledByCompletion(cap, units, q, Direct(cfg, s, 0, policy));
    SettledByCompletion(cap, units, FeeQuote(q.fee, q.net, q.fee), Adopted(cfg, s, 0, policy, 0));
    AdoptionRefinesSubmission(cfg, s, 0, 0, policy, q, COMPLETION, None);
  }

  /** So it is with an absorbed miner fee of one unit on two, and with a flat fee of one. */
  lemma UnreportedFeeExamples()
    ensures forall policy :: policy in {MinerFee(1, true, 0), FlatFee(1, 0)} ==>
      var cfg, s := OneADay(2), Claiming(2, 3);
      && Reachable(cfg, s) && Working(s, 0)
      && var direct := NextWithdrawal(cfg, Direct(cfg, s, 0, policy), PayoutEvent(0, COMPLETION, None));
      var adopted := NextWithdrawal(cfg, Adopted(cfg, s, 0, policy, 0), PayoutEvent(0, COMPLETION, None));
      SettledRow(direct, 0) && SettledRow(adopted, 0) && !SameBalances(direct.book, adopted.book)
  {
    hide Reachable, Claiming, Direct, Adopted, SameBalances, NextWithdrawal, SettledRow;
    UnreportedFeeParts(2, 3, MinerFee(1, true, 0), FeeQuote(0, 2, 1));
    UnreportedFeeParts(2, 3, FlatFee(1, 0), FeeQuote(1, 1, 0));
  }
}
