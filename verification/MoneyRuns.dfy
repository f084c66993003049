/** The payout worker's steps and the crash sweep keep the invariants, hence every admissible
    run does, whatever crashes, is answered late, or is created without an answer. */
module MoneyRuns {
  import opened Wrappers
  import opened Numerals
  import opened Ledger
  import opened Fees
  import opened Withdrawals
  import opened WithdrawalBooks
  import opened MoneyPath
  import opened MoneyInvariants
  import opened MoneyFlow
  import D = Deposits
  import Amounts

  // -- the worker ------------------------------------------------------------------------

  lemma RetireKept(cfg: Config, s: Sys, k: nat, sel: AccountKey -> bool)
    requires LedgerInv(s) && FlowInv(cfg, s) && k < |s.workers|
    ensures Kept(cfg, s, Retire(s, k), sel)
  {
    hide FlowInv;
    FlowRetire(cfg, s, k);
  }

  lemma ClaimKept(cfg: Config, s: Sys, i: nat, sel: AccountKey -> bool)
    requires LedgerInv(s) && FlowInv(cfg, s)
    ensures Kept(cfg, s, NextWorker(cfg, s, ClaimRow(i)), sel)
  {
    hide Books, Consistent, RowEffect, PostedTo, PayoutsOk, WorkersOk;
    if i < |s.ws| && Claim(s.ws[i]).Some? {
      var w' := Claim(s.ws[i]).value;
      assert RowInv(s.book, s.ws[i]);
      if Attempted(s, i) {
        AttemptedIsLive(cfg, s, i);
        assert false;
      }
      QuietRow(s.book, s.ws[i], w', sel);
      RowKept(cfg, s, i, s.book, w', sel);
      ClaimFlow(cfg, s, i, w');
      SameLedger(WithRow(s, i, s.book, w'), NextWorker(cfg, s, ClaimRow(i)), sel);
    }
  }

  lemma SameLedger(s: Sys, s': Sys, sel: AccountKey -> bool)
    requires LedgerInv(s) && s'.book == s.book && s'.ws == s.ws && s'.deposits == s.deposits
    ensures LedgerInv(s') && (Books(s, sel) ==> Books(s', sel))
  {
  }

  lemma ClaimFlow(cfg: Config, s: Sys, i: nat, w': Withdrawal)
    requires FlowInv(cfg, s) && i < |s.ws| && Unsent(s.ws[i].status) && !Attempted(s, i)
    requires FlowInv(cfg, WithRow(s, i, s.book, w')) && LiveRow(w')
    ensures FlowInv(cfg, WithRow(s, i, s.book, w').(workers := s.workers + [Worker(i, Claimed)]))
  {
    hide PayoutOk;
    var s1 := WithRow(s, i, s.book, w');
    var s' := s1.(workers := s.workers + [Worker(i, Claimed)]);
    assert Unpaid(s, i);
    forall k | 0 <= k < |s'.workers| && s'.workers[k].phase.Answered? ensures AnswerOk(s', s'.workers[k]) {
      assert AnswerOk(s1, s1.workers[k]);
    }
    forall k | 0 <= k < |s'.workers| && s'.workers[k].phase.Claimed? ensures Unpaid(s', s'.workers[k].row) {
      if k < |s.workers| {
        assert Unpaid(s1, s1.workers[k].row);
      }
    }
    forall k | 0 <= k < |s'.payouts| ensures PayoutOk(cfg, s', s'.payouts[k]) {
      SamePayoutOk(cfg, s1, s', s1.payouts[k]);
    }
    forall j | 0 <= j < |s'.ws| && Unsent(s'.ws[j].status) ensures Unpaid(s', j) {
      assert Unpaid(s1, j);
    }
  }

  lemma SamePayoutOk(cfg: Config, s: Sys, s': Sys, p: Payout)
    requires PayoutOk(cfg, s, p) && s'.ws == s.ws
    ensures PayoutOk(cfg, s', p)
  {
  }

  lemma AbandonKept(cfg: Config, s: Sys, k: nat, reason: string, sel: AccountKey -> bool)
    requires LedgerInv(s) && FlowInv(cfg, s)
    ensures Kept(cfg, s, NextWorker(cfg, s, Abandon(k, reason)), sel)
  {
    hide LedgerInv, FlowInv, Books, ReleaseHold;
    if Working(s, k) && s.workers[k].phase.Claimed? {
      var i := s.workers[k].row;
      RetireKept(cfg, s, k, sel);
      FlowRetire(cfg, s, k);
      ReleaseKept(cfg, Retire(s, k), i, ACTOR_NEVER_SUBMITTED, Some(NeverSentProof(reason)), sel);
      RetireCommutes(s, k, i, ReleaseHold(s.book, i, s.ws[i], ACTOR_NEVER_SUBMITTED, Some(NeverSentProof(reason))));
    }
  }

  lemma RetireCommutes(s: Sys, k: nat, i: nat, r: Outcome)
    requires k < |s.workers| && i < |s.ws|
    ensures Retire(CommitRow(s, i, r), k) == CommitRow(Retire(s, k), i, r)
  {
  }

  lemma CreateKept(cfg: Config, s: Sys, k: nat, policy: FeePolicy, created: bool, answered: bool, sel: AccountKey -> bool)
    requires LedgerInv(s) && FlowInv(cfg, s)
    ensures Kept(cfg, s, NextWorker(cfg, s, Create(k, policy, created, answered)), sel)
  {
    hide LedgerInv, FlowInv, Books, QuoteFor, AmountText;
    if Working(s, k) && s.workers[k].phase.Claimed? && QuoteFor(policy, s.ws[s.workers[k].row].gross).Success? {
      var i := s.workers[k].row;
      var q := QuoteFor(policy, s.ws[i].gross).value;
      QuotesAreSound(policy, s.ws[i].gross);
      RetireKept(cfg, s, k, sel);
      if created {
        PayoutFlow(cfg, s, k, q);
        var s1 := Created(cfg, s, k, q, true, true);
        SameLedger(s, s1, sel);
        RetireKept(cfg, s1, k, sel);
        var s2 := Created(cfg, s, k, q, true, false);
        SameLedger(s, s2, sel);
        RetiredAnswer(cfg, s, k, q);
      }
    }
  }

  /** The payout is created and its id comes back. */
  lemma PayoutFlow(cfg: Config, s: Sys, k: nat, q: FeeQuote)
    requires FlowInv(cfg, s) && Working(s, k) && s.workers[k].phase.Claimed? && Sound(q, s.ws[s.workers[k].row].gross)
    ensures FlowInv(cfg, Created(cfg, s, k, q, true, true))
  {
    hide AmountText;
    var i := s.workers[k].row;
    var s' := Created(cfg, s, k, q, true, true);
    var mine := s'.payouts[|s.payouts|];
    assert Unpaid(s, i);
    assert SentAs(mine, q.net, Decimals(cfg, s.ws[i].asset));
    forall l | 0 <= l < |s'.workers| && s'.workers[l].phase.Answered? ensures AnswerOk(s', s'.workers[l]) {
      assert l != k ==> AnswerOk(s, s.workers[l]);
    }
    forall l | 0 <= l < |s'.workers| && s'.workers[l].phase.Claimed? ensures Unpaid(s', s'.workers[l].row) {
      assert Unpaid(s, s.workers[l].row);
      assert s.workers[l].row != i;
    }
    forall p | 0 <= p < |s'.payouts| ensures PayoutOk(cfg, s', s'.payouts[p]) {
      assert p < |s.payouts| ==> PayoutOk(cfg, s, s.payouts[p]);
    }
    forall j | 0 <= j < |s'.ws| && Unsent(s'.ws[j].status) ensures Unpaid(s', j) {
      assert Unpaid(s, j);
    }
    forall p, r | 0 <= p < r < |s'.payouts| ensures !Rivals(s'.payouts[p], s'.payouts[r]) {
      if r == |s.payouts| {
        assert !LiveFor(s.payouts[p], i);
      }
    }
  }

  /** A payout created without an answer is what an answered one is after its worker crashed. */
  lemma RetiredAnswer(cfg: Config, s: Sys, k: nat, q: FeeQuote)
    requires Working(s, k) && FlowInv(cfg, Retire(Created(cfg, s, k, q, true, true), k))
    ensures FlowInv(cfg, Created(cfg, s, k, q, true, false))
  {
    var s1 := Retire(Created(cfg, s, k, q, true, true), k);
    var s2 := Created(cfg, s, k, q, true, false);
    assert s1.workers[k] == Worker(s.workers[k].row, Done);
    assert s1.workers == s2.workers;
    assert s1 == s2;
  }

  lemma RecordKept(cfg: Config, s: Sys, k: nat, sel: AccountKey -> bool)
    requires LedgerInv(s) && FlowInv(cfg, s)
    ensures Kept(cfg, s, NextWorker(cfg, s, Record(k)), sel)
  {
    hide LedgerInv, FlowInv, Books, RecordSubmission;
    if Working(s, k) && s.workers[k].phase.Answered? {
      var Worker(i, Answered(p, q)) := s.workers[k];
      var r := RecordSubmission(s.book, i, s.ws[i], PayoutRef(p), q);
      var s1 := Retire(s, k);
      RetireKept(cfg, s, k, sel);
      FlowRetire(cfg, s, k);
      RetireCommutes(s, k, i, r);
      AnswerFacts(cfg, s, k);
      if r.Success? {
        RecordedRow(cfg, s1, i, PayoutRef(p), q, sel);
      }
    }
  }

  lemma AnswerFacts(cfg: Config, s: Sys, k: nat)
    requires FlowInv(cfg, s) && Working(s, k) && s.workers[k].phase.Answered?
    ensures LiveRow(s.ws[s.workers[k].row]) && Sound(s.workers[k].phase.quote, s.ws[s.workers[k].row].gross)
  {
    assert AnswerOk(s, s.workers[k]);
  }

  /** Recording a submission on a row that has none and that nobody attempts any more. */
  lemma RecordedRow(cfg: Config, s: Sys, i: nat, ref: Reference, q: FeeQuote, sel: AccountKey -> bool)
    requires LedgerInv(s) && FlowInv(cfg, s) && i < |s.ws| && !Attempted(s, i)
    requires s.ws[i].submit.None? && s.ws[i].settle.None? && s.ws[i].release.None? && Sound(q, s.ws[i].gross)
    ensures Kept(cfg, s, CommitRow(s, i, RecordSubmission(s.book, i, s.ws[i], ref, q)), sel)
  {
    hide FlowInv, Books, Consistent, RowEffect, PostedTo, RecordSubmission;
    assert RowInv(s.book, s.ws[i]);
    var r := RecordSubmission(s.book, i, s.ws[i], ref, q);
    if r.Success? {
      RecordSubmissionAccounted(s.book, i, s.ws[i], ref, q, sel);
      RowKept(cfg, s, i, r.value.0, r.value.1, sel);
    }
  }

  // -- the sweep ---------------------------------------------------------------------------

  /** An amount survives the trip through its decimal text up to the ceiling on reading. */
  lemma SmallAmount(n: nat, decimals: nat)
    requires n <= MAX_BIGINT
    ensures n <= Amounts.MAX_UNITS ==>
      AmountText(n, decimals) != "" && Amounts.ToUnits(AmountText(n, decimals), decimals) == Success(n)
    ensures n > Amounts.MAX_UNITS ==> AmountText(n, decimals) != "" && Amounts.ToUnits(AmountText(n, decimals), decimals).Failure?
  {
    hide Amounts.ToUnits, Amounts.FromUnits, Pow;
    Amounts.PowTen28();
    Amounts.UnitsRoundTrip(n, decimals);
    Amounts.WrittenNotEmpty(n, decimals);
  }

  /** The quote rebuilt from a payout we sent splits the gross exactly and commits all of it. */
  lemma RebuiltQuote(n: nat, gross: nat, decimals: nat)
    requires n <= gross <= MAX_BIGINT
    ensures QuoteFromPayout(AmountText(n, decimals), gross, decimals)
         == if n <= Amounts.MAX_UNITS then Success(FeeQuote(gross - n, n, gross - n)) else Failure(AmountUnreadable)
  {
    hide Amounts.ToUnits, AmountText;
    SmallAmount(n, decimals);
  }

  lemma ResolveKept(cfg: Config, s: Sys, i: nat, sel: AccountKey -> bool)
    requires LedgerInv(s) && FlowInv(cfg, s) && Admissible(s, ResolveStuck(i))
    ensures Kept(cfg, s, NextWorker(cfg, s, ResolveStuck(i)), sel)
  {
    hide LedgerInv, FlowInv, Books, RecordSubmission, Unclaimed;
    if i < |s.ws| && Stuck(s.ws[i]) {
      StuckFacts(s, i);
      match FindMine(s.payouts, i) {
        case Some(p) =>
          var q := PayoutFacts(cfg, s, i, p);
          if QuoteFromPayout(s.payouts[p].amount, s.ws[i].gross, Decimals(cfg, s.ws[i].asset)).Success? {
            RecordedRow(cfg, s, i, PayoutRef(p), q, sel);
          }
        case None =>
          if !(exists p :: 0 <= p < |s.payouts| && Unclaimed(s.payouts[p], s.ws[i].destination)) {
            var w' := s.ws[i].(status := Approved);
            QuietRow(s.book, s.ws[i], w', sel);
            RowKept(cfg, s, i, s.book, w', sel);
          }
      }
    }
  }

  lemma StuckFacts(s: Sys, i: nat)
    requires LedgerInv(s) && i < |s.ws| && Stuck(s.ws[i])
    ensures var w := s.ws[i];
      Consistent(s.book) && EntriesOk(s.book, w) && w.submit.None? && w.settle.None? && w.release.None? && 0 < w.gross <= MAX_BIGINT
      && StatusOk(w.(status := Approved))
  {
    hide Consistent, PostedTo;
    assert RowInv(s.book, s.ws[i]);
  }

  /** What the sweep rebuilds from the payout it found. */
  lemma PayoutFacts(cfg: Config, s: Sys, i: nat, p: nat) returns (q: FeeQuote)
    requires FlowInv(cfg, s) && i < |s.ws| && p < |s.payouts| && LiveFor(s.payouts[p], i) && 0 < s.ws[i].gross <= MAX_BIGINT
    ensures var r := QuoteFromPayout(s.payouts[p].amount, s.ws[i].gross, Decimals(cfg, s.ws[i].asset));
      r.Success? ==> r.value == q
    ensures Covered(q, s.ws[i].gross)
  {
    hide QuoteFromPayout, AmountText, WorkersOk;
    assert PayoutOk(cfg, s, s.payouts[p]);
    var decimals := Decimals(cfg, s.ws[i].asset);
    var n :| 0 <= n <= s.ws[i].gross && SentAs(s.payouts[p], n, decimals);
    RebuiltQuote(n, s.ws[i].gross, decimals);
    q := FeeQuote(s.ws[i].gross - n, n, s.ws[i].gross - n);
  }

  lemma ForeignKept(cfg: Config, s: Sys, destination: string, amount: string, sel: AccountKey -> bool)
    requires LedgerInv(s) && FlowInv(cfg, s)
    ensures Kept(cfg, s, NextWorker(cfg, s, ForeignPayout(destination, amount)), sel)
  {
    hide LedgerInv, Books;
    var s' := NextWorker(cfg, s, ForeignPayout(destination, amount));
    SameLedger(s, s', sel);
    forall k | 0 <= k < |s'.workers| && s'.workers[k].phase.Answered? ensures AnswerOk(s', s'.workers[k]) {
      assert AnswerOk(s, s.workers[k]);
    }
    forall k | 0 <= k < |s'.workers| && s'.workers[k].phase.Claimed? ensures Unpaid(s', s'.workers[k].row) {
      assert Unpaid(s, s.workers[k].row);
    }
    forall p | 0 <= p < |s'.payouts| ensures PayoutOk(cfg, s', s'.payouts[p]) {
      assert p < |s.payouts| ==> PayoutOk(cfg, s, s.payouts[p]);
    }
    forall j | 0 <= j < |s'.ws| && Unsent(s'.ws[j].status) ensures Unpaid(s', j) {
      assert Unpaid(s, j);
    }
  }

  lemma CancelKept(cfg: Config, s: Sys, p: nat, sel: AccountKey -> bool)
    requires LedgerInv(s) && FlowInv(cfg, s)
    ensures Kept(cfg, s, NextWorker(cfg, s, CancelPayout(p)), sel)
  {
    hide LedgerInv, Books, FlowInv;
    var s' := NextWorker(cfg, s, CancelPayout(p));
    SameLedger(s, s', sel);
    if p < |s.payouts| {
      CancelFlow(cfg, s, p);
    }
  }

  lemma CancelledOk(cfg: Config, s: Sys, s': Sys, p: Payout, p': Payout)
    requires PayoutOk(cfg, s, p) && s'.ws == s.ws && p'.echo == p.echo && p'.amount == p.amount
    ensures PayoutOk(cfg, s', p')
  {
    hide AmountText;
    if p.echo.Some? {
      var n :| 0 <= n <= s.ws[p.echo.value].gross && SentAs(p, n, Decimals(cfg, s.ws[p.echo.value].asset));
      assert SentAs(p', n, Decimals(cfg, s'.ws[p.echo.value].asset));
    }
  }

  lemma CancelFlow(cfg: Config, s: Sys, p: nat)
    requires FlowInv(cfg, s) && p < |s.payouts|
    ensures FlowInv(cfg, s.(payouts := s.payouts[p := s.payouts[p].(cancelled := true)]))
  {
    hide LiveRow;
    var s' := s.(payouts := s.payouts[p := s.payouts[p].(cancelled := true)]);
    forall k | 0 <= k < |s'.workers| && s'.workers[k].phase.Answered? ensures AnswerOk(s', s'.workers[k]) {
      assert AnswerOk(s, s.workers[k]);
    }
    forall k | 0 <= k < |s'.workers| && s'.workers[k].phase.Claimed? ensures Unpaid(s', s'.workers[k].row) {
      assert Unpaid(s, s.workers[k].row);
    }
    forall q | 0 <= q < |s'.payouts| ensures PayoutOk(cfg, s', s'.payouts[q]) {
      CancelledOk(cfg, s, s', s.payouts[q], s'.payouts[q]);
    }
    forall j | 0 <= j < |s'.ws| && Unsent(s'.ws[j].status) ensures Unpaid(s', j) {
      assert Unpaid(s, j);
    }
    forall q, r | 0 <= q < r < |s'.payouts| ensures !Rivals(s'.payouts[q], s'.payouts[r]) {
      assert !Rivals(s.payouts[q], s.payouts[r]);
    }
  }

  lemma NextWorkerKept(cfg: Config, s: Sys, step: Step, sel: AccountKey -> bool)
    requires LedgerInv(s) && FlowInv(cfg, s) && Admissible(s, step)
    ensures Kept(cfg, s, NextWorker(cfg, s, step), sel)
  {
    hide LedgerInv, FlowInv, Books;
    match step {
      case ClaimRow(i) => ClaimKept(cfg, s, i, sel);
      case Abandon(k, reason) => AbandonKept(cfg, s, k, reason, sel);
      case Create(k, policy, created, answered) => CreateKept(cfg, s, k, policy, created, answered, sel);
      case Record(k) => RecordKept(cfg, s, k, sel);
      case Crash(k) =>
        if k < |s.workers| {
          RetireKept(cfg, s, k, sel);
        }
      case ResolveStuck(i) => ResolveKept(cfg, s, i, sel);
      case ForeignPayout(destination, amount) => ForeignKept(cfg, s, destination, amount, sel);
      case CancelPayout(p) => CancelKept(cfg, s, p, sel);
      case _ =>
    }
  }

  // -- every step, every run -----------------------------------------------------------------

  lemma DepositsLeaveFlow(cfg: Config, s: Sys, step: Step)
    requires FlowInv(cfg, s)
    ensures FlowInv(cfg, NextDeposit(s, step))
  {
    hide D.ApplyInvoiceState, D.ResolveReview;
    var s' := NextDeposit(s, step);
    assert s'.ws == s.ws && s'.payouts == s.payouts && s'.workers == s.workers;
    SameFlow(cfg, s, s');
  }

  lemma SameFlow(cfg: Config, s: Sys, s': Sys)
    requires FlowInv(cfg, s) && s'.ws == s.ws && s'.payouts == s.payouts && s'.workers == s.workers
    ensures FlowInv(cfg, s')
  {
    forall k | 0 <= k < |s'.workers| && s'.workers[k].phase.Answered? ensures AnswerOk(s', s'.workers[k]) {
      assert AnswerOk(s, s.workers[k]);
    }
    forall k | 0 <= k < |s'.workers| && s'.workers[k].phase.Claimed? ensures Unpaid(s', s'.workers[k].row) {
      assert Unpaid(s, s.workers[k].row);
    }
    forall j | 0 <= j < |s.ws| && Unsent(s.ws[j].status) ensures Unpaid(s', j) {
      assert Unpaid(s, j);
    }
    forall q | 0 <= q < |s'.payouts| ensures PayoutOk(cfg, s', s'.payouts[q]) {
      assert PayoutOk(cfg, s, s.payouts[q]);
    }
  }

  lemma NextKept(cfg: Config, s: Sys, step: Step, sel: AccountKey -> bool)
    requires LedgerInv(s) && FlowInv(cfg, s) && Admissible(s, step)
    ensures Kept(cfg, s, Next(cfg, s, step), sel)
  {
    hide LedgerInv, FlowInv, Books, Admissible, NextWithdrawal, NextWorker, NextDeposit;
    if IsDepositStep(step) {
      NextDepositKeepsLedger(s, step, sel);
      DepositsLeaveFlow(cfg, s, step);
    } else if IsWorkerStep(step) {
      NextWorkerKept(cfg, s, step, sel);
    } else {
      NextWithdrawalKept(cfg, s, step, sel);
    }
  }

  lemma {:induction false} InitialBalances(accounts: seq<Account>, sel: AccountKey -> bool)
    requires forall i :: 0 <= i < |accounts| ==> accounts[i].balance == 0
    ensures SelSum(accounts, sel) == 0
  {
    if accounts != [] {
      InitialBalances(accounts[..|accounts| - 1], sel);
    }
  }

  lemma InitialKept(cfg: Config, s: Sys, sel: AccountKey -> bool)
    requires IsInitial(s)
    ensures LedgerInv(s) && FlowInv(cfg, s) && Books(s, sel)
  {
    forall i | 0 <= i < |s.book.accounts| ensures s.book.accounts[i].balance == 0 {
      assert s.book.accounts[i].balance == Derived(s.book.entries, i);
    }
    InitialBalances(s.book.accounts, sel);
  }

  /** Every state of every history is sound. */
  lemma {:induction false} HistoryKept(cfg: Config, states: seq<Sys>, steps: seq<Step>, n: nat, sel: AccountKey -> bool)
    requires History(cfg, states, steps) && n <= |steps|
    ensures LedgerInv(states[n]) && FlowInv(cfg, states[n]) && Books(states[n], sel)
  {
    hide LedgerInv, FlowInv, Books, Admissible, Next, IsInitial;
    if n == 0 {
      InitialKept(cfg, states[0], sel);
    } else {
      HistoryKept(cfg, states, steps, n - 1, sel);
      assert StepAt(cfg, states, steps, n - 1);
      NextKept(cfg, states[n - 1], steps[n - 1], sel);
    }
  }

  /** A sweep's decision touches one row. */
  lemma DecisionLeavesOthers(cfg: Config, s: Sys, i: nat)
    requires i < |s.ws|
    ensures var s' := ResolveDecision(cfg, s, i);
      |s'.ws| == |s.ws| && s'.workers == s.workers && forall j :: 0 <= j < |s.ws| && j != i ==> s'.ws[j] == s.ws[j]
  {
    hide RecordSubmission, QuoteFromPayout, Unclaimed;
  }

  /** In every reachable state the books are exactly the sum of what the rows did to them, for any
      selection of accounts, and rows, workers and payouts agree about who may still send. */
  lemma ReachableKept(cfg: Config, s: Sys, sel: AccountKey -> bool)
    requires Reachable(cfg, s)
    ensures LedgerInv(s) && FlowInv(cfg, s) && Books(s, sel)
  {
    hide LedgerInv, FlowInv, Books, IsInitial, StepAt;
    var states, steps :| History(cfg, states, steps) && states[|steps|] == s;
    HistoryKept(cfg, states, steps, |steps|, sel);
  }

  /** Any admissible step leads from a reachable state to another. */
  lemma ReachableNext(cfg: Config, s: Sys, step: Step)
    requires Reachable(cfg, s) && Admissible(s, step)
    ensures Reachable(cfg, Next(cfg, s, step))
  {
    hide Next, Admissible, IsInitial;
    var states, steps :| History(cfg, states, steps) && states[|steps|] == s;
    var states', steps' := states + [Next(cfg, s, step)], steps + [step];
    forall n | 0 <= n < |steps'| ensures StepAt(cfg, states', steps', n) {
      assert n < |steps| ==> StepAt(cfg, states, steps, n);
    }
    assert History(cfg, states', steps');
    assert states'[|steps'|] == Next(cfg, s, step);
  }
}
