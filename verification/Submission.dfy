/** No withdrawal is ever paid twice, and a hold given back before anything was sent belongs to
    a withdrawal that is never paid at all. */
module Submission {
  import opened Texts
  import opened Wrappers
  import opened Ledger
  import opened Fees
  import opened Withdrawals
  import opened WithdrawalBooks
  import opened MoneyPath
  import opened MoneyInvariants
  import opened MoneyFlow
  import opened MoneyRuns
  import D = Deposits
  import Tron

  /** Whatever crashed, was answered late or was created without an answer: at most one payout
      that can still complete carries a withdrawal's id, and none does while the withdrawal
      waits for approval or for a worker. */
  lemma NoDoubleSubmission(cfg: Config, s: Sys, i: nat)
    requires Reachable(cfg, s) && i < |s.ws|
    ensures forall p, q :: 0 <= p < |s.payouts| && 0 <= q < |s.payouts| && LiveFor(s.payouts[p], i) && LiveFor(s.payouts[q], i) ==> p == q
    ensures s.ws[i].status in {Requested, PendingApproval, Approved} ==> Unpaid(s, i)
  {
    hide Reachable, Consistent, Books, D.DepositOk, CreditsOwned, PayoutOk, EntriesOk;
    ReachableKept(cfg, s, _ => true);
    assert RowInv(s.book, s.ws[i]);
    forall p, q | 0 <= p < |s.payouts| && 0 <= q < |s.payouts| && LiveFor(s.payouts[p], i) && LiveFor(s.payouts[q], i)
      ensures p == q
    {
      assert p < q ==> Rivals(s.payouts[p], s.payouts[q]);
      assert q < p ==> Rivals(s.payouts[q], s.payouts[p]);
    }
  }

  // -- early release ---------------------------------------------------------------------------

  /** The hold went back to the user, nothing that could still complete pays the withdrawal,
      and nobody is about to send it. */
  predicate Buried(s: Sys, i: nat) {
    i < |s.ws| && s.ws[i].status == Refunded && s.ws[i].release.Some? && Unpaid(s, i) && !Attempted(s, i)
  }

  /** The releases that need no attestation: a rejection, an admin release of a withdrawal that
      was not yet claimed, and a worker giving up before it called the rail. */
  predicate ReleasesEarly(s: Sys, step: Step, i: nat) {
    i < |s.ws|
    && match step
       case RejectRow(j, _) => j == i
       case AdminRelease(j, _, _) => j == i && AutoReleasable(s.ws[i].status)
       case Abandon(k, _) => Working(s, k) && s.workers[k].row == i
       case _ => false
  }

  predicate GaveBack(s: Sys, s': Sys, i: nat) {
    i < |s.ws| && i < |s'.ws| && s.ws[i].release.None? && s'.ws[i].release.Some?
  }

  lemma ReleaseRefunds(b: Book, i: nat, w: Withdrawal, actor: string, attestation: Option<string>)
    requires ReleaseHold(b, i, w, actor, attestation).Success? && w.release.None?
    ensures var w' := ReleaseHold(b, i, w, actor, attestation).value.1; w'.status == Refunded && w'.release.Some?
  {
    hide PostUnsubmitEntry, Post, UserAccounts, Blank, Strip;
  }

  lemma EarlyReleaseBuries(cfg: Config, s: Sys, step: Step, i: nat)
    requires LedgerInv(s) && FlowInv(cfg, s) && ReleasesEarly(s, step, i) && GaveBack(s, Next(cfg, s, step), i)
    ensures Buried(Next(cfg, s, step), i)
  {
    hide LedgerInv, FlowInv, ReleaseHold, Buried, NextDeposit, NextWorker;
    UnclaimedRow(s, i);
    if step.Abandon? {
      hide NextWithdrawal;
      AbandonBuries(cfg, s, step.k, step.reason);
    } else if step.RejectRow? {
      EarlyRowBuries(cfg, s, i, s.ws[i].(status := Rejected), step.actor, None);
    } else {
      EarlyRowBuries(cfg, s, i, s.ws[i], step.actor, Some(step.attestation));
    }
  }

  lemma UnclaimedRow(s: Sys, i: nat)
    requires LedgerInv(s) && i < |s.ws|
    ensures s.ws[i].status != Requested && s.ws[i].status != Rejected
  {
    hide Consistent, EntriesOk, D.DepositOk, CreditsOwned;
    assert RowInv(s.book, s.ws[i]);
  }

  lemma AbandonBuries(cfg: Config, s: Sys, k: nat, reason: string)
    requires FlowInv(cfg, s) && Working(s, k) && GaveBack(s, NextWorker(cfg, s, Abandon(k, reason)), s.workers[k].row)
    ensures Buried(NextWorker(cfg, s, Abandon(k, reason)), s.workers[k].row)
  {
    hide ReleaseHold, PayoutOk, AnswerOk, LiveRow;
    var i := s.workers[k].row;
    assert Unpaid(s, i);
    FlowRetire(cfg, s, k);
    var r := ReleaseHold(s.book, i, s.ws[i], ACTOR_NEVER_SUBMITTED, Some(NeverSentProof(reason)));
    RetireCommutes(s, k, i, r);
    ReleaseRefunds(s.book, i, s.ws[i], ACTOR_NEVER_SUBMITTED, Some(NeverSentProof(reason)));
  }

  lemma EarlyRowBuries(cfg: Config, s: Sys, i: nat, w: Withdrawal, actor: string, attestation: Option<string>)
    requires FlowInv(cfg, s) && i < |s.ws| && Unsent(s.ws[i].status) && s.ws[i].release.None? && w == s.ws[i].(status := w.status)
    requires ReleaseHold(s.book, i, w, actor, attestation).Success?
    ensures Buried(CommitRow(s, i, ReleaseHold(s.book, i, w, actor, attestation)), i)
  {
    hide ReleaseHold, PayoutOk;
    ReleaseRefunds(s.book, i, w, actor, attestation);
    if Attempted(s, i) {
      AttemptedIsLive(cfg, s, i);
      assert false;
    }
    assert Unpaid(s, i);
  }

  predicate StillRefunded(s: Sys, s': Sys, i: nat) {
    i < |s.ws| && i < |s'.ws| && s'.ws[i].status == Refunded && s'.ws[i].release == s.ws[i].release
  }

  /** A refunded row that nobody attempts stays refunded. */
  lemma RefundedStays(cfg: Config, s: Sys, step: Step, i: nat)
    requires i < |s.ws| && s.ws[i].status == Refunded && s.ws[i].release.Some? && !Attempted(s, i) && Admissible(s, step)
    ensures StillRefunded(s, Next(cfg, s, step), i)
  {
    hide NextWithdrawal, NextWorker, NextDeposit, Admissible, Attempted;
    if IsDepositStep(step) {
      DepositsLeaveRows(s, step);
    } else if IsWorkerStep(step) {
      RefundedByWorkers(cfg, s, step, i);
    } else {
      RefundedByWithdrawals(cfg, s, step, i);
    }
  }

  lemma DepositsLeaveRows(s: Sys, step: Step)
    ensures var s' := NextDeposit(s, step); s'.ws == s.ws && s'.payouts == s.payouts && s'.workers == s.workers
  {
    hide D.ApplyInvoiceState, D.ResolveReview, D.AttachFrom, D.MarkFailed, InvoiceFree;
  }

  lemma RefundedByWithdrawals(cfg: Config, s: Sys, step: Step, i: nat)
    requires i < |s.ws| && s.ws[i].status == Refunded && s.ws[i].release.Some? && Admissible(s, step)
    ensures StillRefunded(s, NextWithdrawal(cfg, s, step), i)
  {
    hide PlaceHold, PostSettleEntry, PostUnsubmitEntry, PostReleaseEntry, SubmitManual, TxidFree, Tron.Verdict,
         QuoteFor, Blank, Strip, Normalized;
  }

  lemma RefundedByWorkers(cfg: Config, s: Sys, step: Step, i: nat)
    requires i < |s.ws| && s.ws[i].status == Refunded && s.ws[i].release.Some? && !Attempted(s, i)
    ensures StillRefunded(s, NextWorker(cfg, s, step), i)
  {
    hide ReleaseHold, RecordSubmission, QuoteFor, ResolveDecision, AmountText;
    if step.ResolveStuck? {
      OtherRowsStay(cfg, s, step.i, i);
    }
  }

  lemma OtherRowsStay(cfg: Config, s: Sys, j: nat, i: nat)
    requires i < |s.ws| && s.ws[i].status == Refunded
    ensures j < |s.ws| && Stuck(s.ws[j]) ==> ResolveDecision(cfg, s, j).ws[i] == s.ws[i] && |ResolveDecision(cfg, s, j).ws| == |s.ws|
  {
    hide RecordSubmission, QuoteFromPayout, Unclaimed;
  }

  lemma NobodySends(cfg: Config, s: Sys, step: Step, i: nat)
    requires i < |s.ws| && s.ws[i].status == Refunded && Unpaid(s, i) && !Attempted(s, i)
    ensures Unpaid(Next(cfg, s, step), i) && !Attempted(Next(cfg, s, step), i)
  {
    hide NextWithdrawal, NextWorker, NextDeposit, Attempted, Unpaid;
    if IsDepositStep(step) {
      DepositsLeaveRows(s, step);
      SameRail(s, NextDeposit(s, step), i);
    } else if IsWorkerStep(step) {
      WorkersSendNothing(cfg, s, step, i);
    } else {
      WithdrawalsLeaveRail(cfg, s, step);
      SameRail(s, NextWithdrawal(cfg, s, step), i);
    }
  }

  lemma SameRail(s: Sys, s': Sys, i: nat)
    requires Unpaid(s, i) && !Attempted(s, i) && s'.payouts == s.payouts && s'.workers == s.workers
    ensures Unpaid(s', i) && !Attempted(s', i)
  {
  }

  lemma WithdrawalsLeaveRail(cfg: Config, s: Sys, step: Step)
    ensures var s' := NextWithdrawal(cfg, s, step); s'.payouts == s.payouts && s'.workers == s.workers
  {
    hide PlaceHold, ApplyPayoutState, ReleaseHold, PollManual, MarkBroadcast, ApprovedOutcome, Reject, Correlated;
  }

  lemma WorkersSendNothing(cfg: Config, s: Sys, step: Step, i: nat)
    requires i < |s.ws| && s.ws[i].status == Refunded && Unpaid(s, i) && !Attempted(s, i)
    ensures Unpaid(NextWorker(cfg, s, step), i) && !Attempted(NextWorker(cfg, s, step), i)
  {
    hide ReleaseHold, RecordSubmission, QuoteFor, AmountText, ResolveDecision;
    if step.ResolveStuck? {
      DecisionLeavesRail(cfg, s, step.i);
    }
    var s' := NextWorker(cfg, s, step);
    forall p | 0 <= p < |s'.payouts| ensures !LiveFor(s'.payouts[p], i) {
      assert p < |s.payouts| ==> !LiveFor(s.payouts[p], i);
    }
    forall k | 0 <= k < |s'.workers| && IsLive(s'.workers[k]) ensures s'.workers[k].row != i {
      assert k < |s.workers| && IsLive(s.workers[k]) ==> s.workers[k].row != i;
    }
  }

  lemma DecisionLeavesRail(cfg: Config, s: Sys, j: nat)
    ensures j < |s.ws| ==> ResolveDecision(cfg, s, j).payouts == s.payouts && ResolveDecision(cfg, s, j).workers == s.workers
  {
    hide RecordSubmission, QuoteFromPayout, Unclaimed;
  }

  lemma BuriedStays(cfg: Config, s: Sys, step: Step, i: nat)
    requires Buried(s, i) && Admissible(s, step)
    ensures Buried(Next(cfg, s, step), i)
  {
    hide Next, Unpaid, Attempted, Admissible;
    RefundedStays(cfg, s, step, i);
    NobodySends(cfg, s, step, i);
  }

  /** A hold given back early, at step `m` of a history, belongs to a withdrawal that no payout
      pays, right then or at any later state `n` of the history. */
  lemma {:induction false} EarlyReleaseIsSafeForever(cfg: Config, states: seq<Sys>, steps: seq<Step>, m: nat, n: nat, i: nat)
    requires History(cfg, states, steps) && m < n <= |steps|
    requires ReleasesEarly(states[m], steps[m], i) && GaveBack(states[m], states[m + 1], i)
    ensures Buried(states[n], i)
    decreases n
  {
    hide IsInitial, LedgerInv, FlowInv, Next, Admissible, Buried, ReleasesEarly, GaveBack;
    assert StepAt(cfg, states, steps, n - 1);
    if n == m + 1 {
      HistoryKept(cfg, states, steps, m, _ => true);
      EarlyReleaseBuries(cfg, states[m], steps[m], i);
    } else {
      EarlyReleaseIsSafeForever(cfg, states, steps, m, n - 1, i);
      BuriedStays(cfg, states[n - 1], steps[n - 1], i);
    }
  }

  // -- why the assumptions are needed ------------------------------------------------------------

  /** The sweep decides on a row without looking at its status again: a decision that reaches a
      released row makes it claimable, and so payable, exactly when no payout is found for it. */
  lemma StaleDecisionRevives(cfg: Config, s: Sys, i: nat)
    requires i < |s.ws| && s.ws[i].status == Refunded && s.ws[i].backend != ManualTron
    ensures Claim(ResolveDecision(cfg, s, i).ws[i]).Some? <==>
      FindMine(s.payouts, i).None? && !exists p :: 0 <= p < |s.payouts| && Unclaimed(s.payouts[p], s.ws[i].destination)
  {
    hide QuoteFromPayout, PostSubmitEntry, Unclaimed;
  }

  /** A report is settled before its transition is checked: a released withdrawal that is still
      open to a settlement ends up both released and settled exactly when a completion arrives. */
  lemma LateCompletionSettles(b: Book, ws: seq<Withdrawal>, i: nat, w: Withdrawal, report: Report, actual: Option<int>)
    requires RowOk(b, w) && w.status == Refunded
    requires ApplyPayoutState(b, ws, i, w, report, actual).Success?
    ensures var w' := ApplyPayoutState(b, ws, i, w, report, actual).value.1;
      w'.release.Some? && w'.status == Refunded && (w'.settle.Some? <==> report.state == Completed)
  {
    hide PostSettleEntry, TxidFree, PostedTo;
    SettleSetsOnlySettle(b, i, w, actual);
    SettleSetsOnlySettle(b, i, w.(txid := report.txid), actual);
  }
}
